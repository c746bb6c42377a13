/** What MoveDirectory means: a re-parenting of the subtree, carried out by three
    UPDATE statements on text, and undone by moving back. */
module MoveTree {
  import opened Base
  import opened PathStrings
  import opened SqlPrefix
  import opened PhysicalTree
  import opened StorageModel
  import opened Content
  import opened Moves

  // ----- the UPDATE statements on text rows

  /** The natural key as the tables hold it. */
  datatype TextKey = TextKey(pool: string, owner: string, parentPath: string, name: string)

  function Text(k: Key): TextKey {
    TextKey(k.pool, k.owner, Render(k.parent), k.name)
  }

  /** The key read back from a row. */
  function Parsed(row: TextKey): Key {
    Key(row.pool, row.owner, CleanSegments(row.parentPath), row.name)
  }

  lemma ReadsBack(k: Key)
    requires Canonical(k.parent)
    ensures Parsed(Text(k)) == k
  {
    RenderReadsBack(k.parent);
  }

  /** UPDATE ... SET parent_path = new || substr(...) WHERE pool, owner and prefix match. */
  function UpdatePrefix(row: TextKey, pool: string, owner: string, srcPath: string, dstPath: string): TextKey {
    if row.pool == pool && row.owner == owner && Selected(row.parentPath, srcPath)
    then row.(parentPath := Rewritten(row.parentPath, srcPath, dstPath))
    else row
  }

  /** MoveDirectoryTree on the folder table: first the folder itself, then the prefix. */
  function SqlMovedDir(row: TextKey, isTarget: bool, k: Key, k': Key): TextKey {
    var first := if isTarget then row.(parentPath := Render(k'.parent), name := k'.name) else row;
    UpdatePrefix(first, k.pool, k.owner, Render(k.Full()), Render(k'.Full()))
  }

  function SqlMovedFile(row: TextKey, k: Key, k': Key): TextKey {
    UpdatePrefix(row, k.pool, k.owner, Render(k.Full()), Render(k'.Full()))
  }

  lemma CanonicalParent(k: Key)
    requires Canonical(k.Full())
    ensures Canonical(k.parent)
  {
    forall x | x in k.parent ensures ValidSegment(x) {
      assert x in k.Full();
    }
  }

  /** On files, the prefix rewrite writes exactly the carried key. */
  lemma SqlFileIsCarried(k: Key, k': Key, item: Key)
    requires UserPath(k.Full()) && Canonical(k'.Full()) && UserPath(item.Full())
    ensures SqlMovedFile(Text(item), k, k') == Text(Carried(k, k', item))
  {
    CanonicalParent(item);
    UpdateIsRebase(k.Full(), k'.Full(), item.parent);
    SelectsDescendants(k.Full(), item.parent);
  }

  /** On folders the second statement leaves the moved folder itself alone, as the
      cycle guard has refused a destination below it. */
  lemma SqlDirIsCarried(id: string, d: string, k: Key, k': Key, item: Key)
    requires UserPath(k.Full()) && Canonical(k'.Full()) && UserPath(item.Full())
    requires k'.pool == k.pool && k'.owner == k.owner
    requires !(k.Full() <= k'.Full()) && (d == id ==> item == k)
    ensures SqlMovedDir(Text(item), d == id, k, k') == Text(CarriedDir(id, d, k, k', item))
  {
    if d == id {
      CanonicalParent(k');
      SelectsDescendants(k.Full(), k'.parent);
      assert k.Full() <= k'.parent ==> k.Full() <= k'.Full();
    } else {
      SqlFileIsCarried(k, k', item);
    }
  }

  // ----- the statements on whole tables

  /** UPDATE directories SET parent_path, name WHERE id. */
  function DirUpdated(dirs: map<string, DirRow>, id: string, parentPath: string, name: string): map<string, DirRow>
    requires id in dirs
  {
    dirs[id := dirs[id].(key := Parsed(Text(dirs[id].key).(parentPath := parentPath, name := name)))]
  }

  /** UPDATE directories SET parent_path WHERE pool, owner and prefix match. */
  function DirsUpdated(dirs: map<string, DirRow>, pool: string, owner: string, srcPath: string, dstPath: string)
    : map<string, DirRow>
  {
    map d | d in dirs :: dirs[d].(key := Parsed(UpdatePrefix(Text(dirs[d].key), pool, owner, srcPath, dstPath)))
  }

  function FilesUpdated(files: map<string, FileRow>, pool: string, owner: string, srcPath: string, dstPath: string)
    : map<string, FileRow>
  {
    map f | f in files :: files[f].(key := Parsed(UpdatePrefix(Text(files[f].key), pool, owner, srcPath, dstPath)))
  }

  lemma FilesUpdatedCarries(files: map<string, FileRow>, k: Key, k': Key)
    requires UserPath(k.Full()) && Canonical(k'.Full()) && k'.pool == k.pool && k'.owner == k.owner
    requires forall f | f in files :: UserPath(files[f].key.Full())
    ensures FilesUpdated(files, k.pool, k.owner, Render(k.Full()), Render(k'.Full())) == CarriedFiles(files, k, k')
  {
    forall f | f in files
      ensures Parsed(SqlMovedFile(Text(files[f].key), k, k')) == Carried(k, k', files[f].key)
    {
      SqlFileIsCarried(k, k', files[f].key);
      CarriedCanonical(k, k', files[f].key);
      ReadsBack(Carried(k, k', files[f].key));
    }
  }

  lemma CarriedCanonical(k: Key, k': Key, item: Key)
    requires Canonical(k'.Full()) && UserPath(item.Full())
    ensures Canonical(Carried(k, k', item).parent)
  {
    CanonicalParent(item);
    if Inside(k, item) {
      forall x | x in Carried(k, k', item).parent ensures ValidSegment(x) {
        assert x in k'.Full() || x in item.parent;
      }
    }
  }

  lemma DirUpdatedIsTarget(dirs: map<string, DirRow>, id: string, k': Key)
    requires id in dirs && Canonical(k'.Full()) && k'.pool == dirs[id].key.pool && k'.owner == dirs[id].key.owner
    ensures DirUpdated(dirs, id, Render(k'.parent), k'.name) == dirs[id := dirs[id].(key := k')]
  {
    CanonicalParent(k');
    ReadsBack(k');
  }

  lemma DirsUpdatedCarries(dirs: map<string, DirRow>, id: string, k: Key, k': Key)
    requires id in dirs && k == dirs[id].key && Canonical(k'.Full()) && k'.pool == k.pool && k'.owner == k.owner
    requires !(k.Full() <= k'.Full()) && forall d | d in dirs :: UserPath(dirs[d].key.Full())
    ensures DirsUpdated(dirs[id := dirs[id].(key := k')], k.pool, k.owner, Render(k.Full()), Render(k'.Full()))
         == CarriedDirs(dirs, id, k, k')
  {
    forall d | d in dirs
      ensures Parsed(SqlMovedDir(Text(dirs[d].key), d == id, k, k')) == CarriedDir(id, d, k, k', dirs[d].key)
    {
      SqlDirIsCarried(id, d, k, k', dirs[d].key);
      CarriedCanonical(k, k', dirs[d].key);
      CanonicalParent(k');
      ReadsBack(if d == id then k' else Carried(k, k', dirs[d].key));
    }
    assert Text(k') == Text(k).(parentPath := Render(k'.parent), name := k'.name);
  }

  predicate UniqueDirs(dirs: map<string, DirRow>) {
    forall i, j | i in dirs && j in dirs && dirs[i].key == dirs[j].key :: i == j
  }

  predicate UniqueFiles(files: map<string, FileRow>) {
    forall i, j | i in files && j in files && files[i].key == files[j].key :: i == j
  }

  /** No statement stops at a repeated key that would be gone in the end. */
  lemma FirstStatementUnique(dirs: map<string, DirRow>, id: string, k: Key, k': Key)
    requires id in dirs && k == dirs[id].key && k'.pool == k.pool && k'.owner == k.owner && !(k.Full() <= k'.Full())
    requires UniqueDirs(CarriedDirs(dirs, id, k, k'))
    ensures UniqueDirs(dirs[id := dirs[id].(key := k')])
  {
    var first, last := dirs[id := dirs[id].(key := k')], CarriedDirs(dirs, id, k, k');
    assert k'.parent <= k'.Full();
    assert !Inside(k, k');
    forall i, j | i in first && j in first && first[i].key == first[j].key ensures i == j {
      assert last[i].key == last[j].key;
    }
  }

  /** A folder may be renamed like this: within its pool and owner, and not into itself. */
  predicate TreeMovable(k: Key, k': Key) {
    && Canonical(k'.Full()) && k'.pool == k.pool && k'.owner == k.owner && !(k.Full() <= k'.Full())
  }

  /** A rename into the reserved folders repeats no key: no row is there yet. */
  lemma ReservedStaysUnique(files: map<string, FileRow>, dirs: map<string, DirRow>, id: string, k': Key)
    requires UserPaths(files, dirs) && UniqueKeys(files, dirs) && id in dirs && Reserved(k')
    requires TreeMovable(dirs[id].key, k')
    ensures KeysStayUnique(files, dirs, id, k')
  {
    var k := dirs[id].key;
    forall i, j | i in files && j in files && Carried(k, k', files[i].key) == Carried(k, k', files[j].key)
      ensures i == j
    {
      CarriedOnce(k, k', files[i].key, files[j].key);
    }
    forall i, j | i in dirs && j in dirs && CarriedDirs(dirs, id, k, k')[i].key == CarriedDirs(dirs, id, k, k')[j].key
      ensures i == j
    {
      if i != id && j != id {
        CarriedOnce(k, k', dirs[i].key, dirs[j].key);
      } else if i != j {
        NotCarriedOnto(k, k', dirs[if i == id then j else i].key);
      }
    }
  }

  lemma CarriedOnce(k: Key, k': Key, a: Key, b: Key)
    requires Reserved(k') && UserPath(a.Full()) && UserPath(b.Full()) && k'.pool == k.pool && k'.owner == k.owner
    requires Carried(k, k', a) == Carried(k, k', b)
    ensures a == b
  {
    CarriedIsReserved(k, k', a);
    CarriedIsReserved(k, k', b);
    if Inside(k, a) && Inside(k, b) {
      var n := |k.Full()|;
      assert a.parent == k.Full() + a.parent[n..] && b.parent == k.Full() + b.parent[n..];
      assert a.parent[n..] == Carried(k, k', a).parent[|k'.Full()|..] == b.parent[n..];
    }
  }

  lemma CarriedIsReserved(k: Key, k': Key, item: Key)
    requires Reserved(k') && UserPath(item.Full())
    ensures Reserved(Carried(k, k', item)) <==> Inside(k, item)
  {
    if Inside(k, item) {
      assert Carried(k, k', item).Full()[0] == k'.Full()[0];
    }
  }

  lemma NotCarriedOnto(k: Key, k': Key, item: Key)
    requires Reserved(k') && UserPath(item.Full())
    ensures Carried(k, k', item) != k'
  {
    CarriedIsReserved(k, k', item);
    if Inside(k, item) {
      assert |Carried(k, k', item).parent| >= |k'.Full()| == |k'.parent| + 1;
    }
  }

  /** The three statements one after the other re-parent both tables, and stop at none unless
      a key is repeated in the end. */
  lemma StatementsCarry(files: map<string, FileRow>, dirs: map<string, DirRow>, id: string, k': Key)
    requires id in dirs && TreeMovable(dirs[id].key, k') && UserPaths(files, dirs)
    ensures var k := dirs[id].key;
            var src, dst := Render(k.Full()), Render(k'.Full());
            var first := DirUpdated(dirs, id, Render(k'.parent), k'.name);
            && id in first && DirsUpdated(first, k.pool, k.owner, src, dst) == CarriedDirs(dirs, id, k, k')
            && FilesUpdated(files, k.pool, k.owner, src, dst) == CarriedFiles(files, k, k')
            && (KeysStayUnique(files, dirs, id, k')
                <==> && UniqueDirs(first) && UniqueDirs(CarriedDirs(dirs, id, k, k'))
                     && UniqueFiles(CarriedFiles(files, k, k')))
  {
    var k := dirs[id].key;
    DirUpdatedIsTarget(dirs, id, k');
    DirsUpdatedCarries(dirs, id, k, k');
    FilesUpdatedCarries(files, k, k');
    if KeysStayUnique(files, dirs, id, k') {
      FirstStatementUnique(dirs, id, k, k');
    }
  }

  // ----- re-parenting

  /** An item at or below the moved folder. */
  predicate InSubtree(k: Key, item: Key) {
    item.pool == k.pool && item.owner == k.owner && k.Full() <= item.Full()
  }

  function Reparented(k: Key, k': Key, item: Key): Path {
    if InSubtree(k, item) then Rebase(k.Full(), k'.Full(), item.Full()) else item.Full()
  }

  lemma CarriedFull(k: Key, k': Key, item: Key)
    requires item != k
    ensures Carried(k, k', item).Full() == Reparented(k, k', item)
    ensures Carried(k, k', item).pool == item.pool && Carried(k, k', item).owner == item.owner
  {
    CarriedPlace(k, k, item);
    if Inside(k, item) {
      var rest := item.parent[|k.Full()|..];
      assert item.Full() == k.Full() + (rest + [item.name]);
      assert item.Full()[|k.Full()|..] == rest + [item.name];
      assert Carried(k, k', item).Full() == k'.Full() + (rest + [item.name]);
    }
  }

  /** MoveDirectory re-parents: every row of the subtree, file or folder, active or
      trashed, at any depth, has its full path rebased; every other row and every
      other column stay as they were; the files on disk move by the same rebasing. */
  lemma MoveDirectoryReparents(s: State, id: string, k': Key)
    requires Agreement(s) && Movable(s, id, k')
    ensures var k, r := s.dirs[id].key, FolderMoved(s, id, k');
            && r.files.Keys == s.files.Keys && r.dirs.Keys == s.dirs.Keys && r.versions == s.versions
            && (forall j | j in s.files ::
                  && r.files[j] == s.files[j].(key := r.files[j].key)
                  && r.files[j].key.pool == s.files[j].key.pool && r.files[j].key.owner == s.files[j].key.owner
                  && r.files[j].key.Full() == Reparented(k, k', s.files[j].key))
            && (forall d | d in s.dirs ::
                  && r.dirs[d] == s.dirs[d].(key := r.dirs[d].key)
                  && r.dirs[d].key.pool == s.dirs[d].key.pool && r.dirs[d].key.owner == s.dirs[d].key.owner
                  && r.dirs[d].key.Full() == Reparented(k, k', s.dirs[d].key))
            && Renames(s.tree, r.tree, At(k), At(k'))
  {
    var k := s.dirs[id].key;
    MovablePlaces(s, id, k');
    MovableRenames(s, id, k');
    NoFileAtFolder(s.files, s.tree, k);
    FilesReparented(s.files, k, k');
    DirsReparented(s.files, s.dirs, id, k');
  }

  lemma NoFileAtFolder(files: map<string, FileRow>, t: Tree, k: Key)
    requires RowsBacked(files, t) && At(k) !in t.content
    ensures forall j | j in files :: files[j].key != k
  {}

  lemma FilesReparented(files: map<string, FileRow>, k: Key, k': Key)
    requires forall j | j in files :: files[j].key != k
    ensures forall j | j in files ::
              var row := CarriedFiles(files, k, k')[j];
              && row == files[j].(key := row.key)
              && row.key.pool == files[j].key.pool && row.key.owner == files[j].key.owner
              && row.key.Full() == Reparented(k, k', files[j].key)
  {
    forall j | j in files ensures Carried(k, k', files[j].key).Full() == Reparented(k, k', files[j].key) {
      CarriedFull(k, k', files[j].key);
    }
  }

  lemma DirsReparented(files: map<string, FileRow>, dirs: map<string, DirRow>, id: string, k': Key)
    requires UniqueKeys(files, dirs) && id in dirs
    requires k'.pool == dirs[id].key.pool && k'.owner == dirs[id].key.owner
    ensures forall d | d in dirs ::
              var row := CarriedDirs(dirs, id, dirs[id].key, k')[d];
              && row == dirs[d].(key := row.key)
              && row.key.pool == dirs[d].key.pool && row.key.owner == dirs[d].key.owner
              && row.key.Full() == Reparented(dirs[id].key, k', dirs[d].key)
  {
    var k := dirs[id].key;
    forall d | d in dirs && d != id ensures Carried(k, k', dirs[d].key).Full() == Reparented(k, k', dirs[d].key) {
      CarriedFull(k, k', dirs[d].key);
    }
    assert k'.Full() == Rebase(k.Full(), k'.Full(), k.Full());
  }

  // ----- moving back

  /** Nothing outside the subtree, trashed or not, lies below the destination. */
  ghost predicate NoFolderUnder(s: State, id: string, k': Key)
    requires id in s.dirs
  {
    forall d | d in s.dirs && d != id && !Inside(s.dirs[id].key, s.dirs[d].key) ::
      !Inside(k', s.dirs[d].key) && s.dirs[d].key != k'
  }

  lemma CarriedBack(k: Key, k': Key, item: Key)
    requires k'.pool == k.pool && k'.owner == k.owner
    requires !(k'.Full() <= k.Full()) && (Inside(k, item) || !Inside(k', item))
    ensures Carried(k', k, Carried(k, k', item)) == item
  {}

  /** No file row lies below a free destination: its content would be there. */
  lemma NoFileUnder(s: State, id: string, k': Key)
    requires Agreement(s) && Movable(s, id, k')
    ensures forall j | j in s.files :: !Inside(k', s.files[j].key)
  {
    NothingBelow(s.tree, At(k'));
    NoneInside(s.files, s.tree, k');
  }

  lemma NoneInside(files: map<string, FileRow>, t: Tree, k: Key)
    requires RowsBacked(files, t)
    requires forall p | p in t.content && At(k) <= p :: p == At(k)
    ensures forall j | j in files :: !Inside(k, files[j].key)
  {}

  lemma FullPrefix(k: Key, k': Key)
    requires k'.pool == k.pool && k'.owner == k.owner
    ensures At(k) <= At(k') <==> k.Full() <= k'.Full()
  {
    var top := [k.pool, k.owner];
    assert At(k)[2..] == k.Full() && At(k')[2..] == k'.Full();
  }

  lemma FullsApart(s: State, id: string, k': Key)
    requires Agreement(s) && Movable(s, id, k')
    ensures !(k'.Full() <= s.dirs[id].key.Full()) && !(s.dirs[id].key.Full() <= k'.Full())
  {
    MovablePlaces(s, id, k');
    FullPrefix(s.dirs[id].key, k');
    FullPrefix(k', s.dirs[id].key);
  }

  lemma FilesBack(files: map<string, FileRow>, k: Key, k': Key)
    requires k'.pool == k.pool && k'.owner == k.owner && !(k'.Full() <= k.Full())
    requires forall j | j in files :: !Inside(k', files[j].key)
    ensures CarriedFiles(CarriedFiles(files, k, k'), k', k) == files
  {
    forall j | j in files ensures Carried(k', k, Carried(k, k', files[j].key)) == files[j].key {
      CarriedBack(k, k', files[j].key);
    }
  }

  lemma DirsBack(dirs: map<string, DirRow>, id: string, k': Key)
    requires id in dirs && !(k'.Full() <= dirs[id].key.Full())
    requires k'.pool == dirs[id].key.pool && k'.owner == dirs[id].key.owner
    requires forall d | d in dirs && d != id && !Inside(dirs[id].key, dirs[d].key) :: !Inside(k', dirs[d].key)
    ensures CarriedDirs(CarriedDirs(dirs, id, dirs[id].key, k'), id, k', dirs[id].key) == dirs
  {
    var k := dirs[id].key;
    forall d | d in dirs && d != id ensures Carried(k', k, Carried(k, k', dirs[d].key)) == dirs[d].key {
      CarriedBack(k, k', dirs[d].key);
    }
  }

  /** Moving a folder away and back, when the move back is accepted, restores every row and
      every file exactly when no foreign folder row lay below the destination; then it is
      accepted. What may stay are the folders made above the destination. */
  lemma MoveBackRestores(s: State, id: string, k': Key)
    requires Agreement(s) && Movable(s, id, k')
    ensures var k, away := s.dirs[id].key, FolderMoved(s, id, k');
            && (NoFolderUnder(s, id, k') ==> Movable(away, id, k))
            && (Movable(away, id, k) ==>
                  (FolderMoved(away, id, k) == Grow(s, Prefixes(Parent(At(k')))) <==> NoFolderUnder(s, id, k')))
  {
    var k, away := s.dirs[id].key, FolderMoved(s, id, k');
    if NoFolderUnder(s, id, k') {
      MoveBackAccepted(s, id, k');
    } else if Movable(away, id, k) {
      var d :| d in s.dirs && d != id && !Inside(k, s.dirs[d].key)
               && (Inside(k', s.dirs[d].key) || s.dirs[d].key == k');
      NoRowAtDestination(s, id, k', d);
      assert FolderMoved(away, id, k).dirs[d].key == Carried(k', k, s.dirs[d].key);
    }
  }

  lemma MoveBackAccepted(s: State, id: string, k': Key)
    requires Agreement(s) && Movable(s, id, k') && NoFolderUnder(s, id, k')
    ensures var k, away := s.dirs[id].key, FolderMoved(s, id, k');
            && Movable(away, id, k)
            && FolderMoved(away, id, k) == Grow(s, Prefixes(Parent(At(k'))))
  {
    var k, away := s.dirs[id].key, FolderMoved(s, id, k');
    MovablePlaces(s, id, k');
    FullsApart(s, id, k');
    NoFileUnder(s, id, k');
    FilesBack(s.files, k, k');
    DirsBack(s.dirs, id, k');
    MoveThereAndBack(s.tree, At(k), At(k'));
    assert away.dirs[id].key == k';
    assert UserPath(k.Full());
  }

  /** The key of the destination is free. */
  lemma NoRowAtDestination(s: State, id: string, k': Key, d: string)
    requires Agreement(s) && Movable(s, id, k') && d in s.dirs && d != id && !Inside(s.dirs[id].key, s.dirs[d].key)
    ensures s.dirs[d].key != k'
  {
    var dirs' := CarriedDirs(s.dirs, id, s.dirs[id].key, k');
    assert dirs'[id].key == k' && dirs'[d].key == s.dirs[d].key;
  }

  /** The move back is not refused. */
  lemma MoveBackUnoccupied(s: State, id: string, k': Key)
    requires Agreement(s) && Movable(s, id, k')
    ensures !Occupied(FolderMoved(s, id, k'), s.dirs[id].key)
  {
    FullsApart(s, id, k');
    MovablePlaces(s, id, k');
    NoFileAtFolder(s.files, s.tree, s.dirs[id].key);
    NoneLeft(s.files, s.dirs, id, k');
  }

  lemma NoneLeft(files: map<string, FileRow>, dirs: map<string, DirRow>, id: string, k': Key)
    requires UniqueKeys(files, dirs) && id in dirs && k' != dirs[id].key
    requires !(k'.Full() <= dirs[id].key.Full())
    requires forall j | j in files :: files[j].key != dirs[id].key
    ensures FindFile(CarriedFiles(files, dirs[id].key, k'), dirs[id].key).None?
    ensures FindDir(CarriedDirs(dirs, id, dirs[id].key, k'), dirs[id].key).None?
  {}
}
