/** The building blocks of the operations that change content: setting the
    current content aside or dropping it, filling the place again, taking a
    version out of the history. Each step is a state; the lemmas say which part
    of the agreement between rows and disk holds there. */
module Content {
  import opened Base
  import opened PathStrings
  import opened PhysicalTree
  import opened StorageModel
  import opened VersionPruning

  /** The agreement, except that file id has no content of its own, and the place
      of k is empty and ready for it. */
  ghost predicate Vacated(s: State, id: string, k: Key) {
    && UserPaths(s.files, s.dirs)
    && UniqueKeys(s.files, s.dirs)
    && HistoryOrdered(s.files, s.versions, s.clock)
    && TreeSound(s.tree)
    && FoldersSound(s.dirs, s.tree)
    && OthersBacked(s.files, id, s.tree)
    && HistoryBacked(s.files, s.versions, s.tree)
    && NothingElse(s.files, s.versions, s.tree)
    && Ready(s.dirs, s.tree, k)
    && Free(s, id, k)
  }

  /** k may become the key of file id. */
  ghost predicate Free(s: State, id: string, k: Key) {
    && UserPath(k.Full())
    && (forall j | j in s.files && j != id :: s.files[j].key != k)
    && (id in s.files ==>
          && At(s.files[id].key) !in s.tree.content
          && s.files[id].key.pool == k.pool && s.files[id].key.owner == k.owner)
  }

  ghost predicate OthersBacked(files: map<string, FileRow>, id: string, t: Tree) {
    forall j | j in files && j != id :: RowBacked(t, files[j])
  }

  /** Nothing stands at the place of k, its folder exists, no folder row claims it. */
  ghost predicate Ready(dirs: map<string, DirRow>, t: Tree, k: Key) {
    && At(k) !in t.content && At(k) !in t.dirs && Parent(At(k)) in t.dirs
    && (forall d | d in dirs :: dirs[d].key != k)
  }

  function Drop(s: State, id: string): State
    requires id in s.files
  {
    s.(tree := s.tree.(content := s.tree.content - {At(s.files[id].key)}))
  }

  function NewVersion(s: State, id: string): VersionRow
    requires id in s.files
  {
    var f := s.files[id];
    var n := NextNum(History(s, id));
    VersionRow(n, f.size, f.sha, VersionAt(f.key, id, n), f.updatedAt)
  }

  /** The current content moves to the version area as the newest version. */
  function Push(s: State, id: string): State
    requires id in s.files
  {
    var v := NewVersion(s, id);
    s.(versions := s.versions[id := [v] + History(s, id)],
       tree := Tree((s.tree.content - {At(s.files[id].key)})[v.key := s.files[id].sha.of],
                    s.tree.dirs + Prefixes(Parent(v.key))))
  }

  /** Only the k newest versions stay, rows and content. */
  function Cut(s: State, id: string, k: nat): State
    requires k <= |History(s, id)|
  {
    var vs := History(s, id);
    s.(versions := s.versions[id := vs[..k]],
       tree := s.tree.(content := s.tree.content - KeysOf(vs[k..])))
  }

  /** snapshotVersion: the current content becomes the newest version, and the
      history is cut to the longest prefix within the limits. */
  ghost function Snapshot(env: Env, s: State, id: string, now: int): State
    requires id in s.files
  {
    Cut(Push(s, id), id, Kept(env, s, id, now))
  }

  /** How many versions a snapshot taken now leaves, the new one included. */
  ghost function Kept(env: Env, s: State, id: string, now: int): (k: nat)
    requires id in s.files
    ensures k <= |History(s, id)| + 1
  {
    KeepLen(env, now, [NewVersion(s, id)] + History(s, id))
  }

  /** Row and content of a file, written together. */
  function Place(s: State, id: string, row: FileRow, now: int): State {
    s.(files := s.files[id := row],
       tree := s.tree.(content := s.tree.content[At(row.key) := row.sha.of]),
       clock := now)
  }

  /** The row after an upload or a restored version: new content, out of the trash. */
  function Renewed(f: FileRow, data: Bytes, now: int): FileRow {
    f.(size := |data|, sha := Sha256(data), updatedAt := now, deletedAt := None)
  }

  /** The j-th version leaves the history, row and content. */
  function Take(s: State, id: string, j: nat): State
    requires id in s.files && j < |History(s, id)|
  {
    var vs := History(s, id);
    s.(versions := s.versions[id := vs[..j] + vs[j + 1..]],
       tree := s.tree.(content := s.tree.content - {vs[j].key}))
  }

  function Grow(s: State, ps: set<Path>): State {
    s.(tree := s.tree.(dirs := s.tree.dirs + ps))
  }

  // ----- what a change of content leaves alone

  /** The two trees hold the same files outside xs. */
  ghost predicate SameOutside(t1: Tree, t2: Tree, xs: set<Path>) {
    forall p | p !in xs ::
      (p in t1.content <==> p in t2.content) && (p in t1.content ==> t1.content[p] == t2.content[p])
  }

  ghost predicate NoVersionPlace(xs: set<Path>) {
    forall p | p in xs :: |p| >= 3 && p[2] != VERSIONS
  }

  lemma ListKept(t1: Tree, t2: Tree, xs: set<Path>, k: Key, id: string, vs: seq<VersionRow>)
    requires ListBacked(t1, k, id, vs) && SameOutside(t1, t2, xs)
    requires forall i | 0 <= i < |vs| :: vs[i].key !in xs
    ensures ListBacked(t2, k, id, vs)
  {}

  lemma HistoriesKept(files: map<string, FileRow>, versions: map<string, seq<VersionRow>>, t1: Tree, t2: Tree,
                      xs: set<Path>)
    requires HistoryBacked(files, versions, t1) && SameOutside(t1, t2, xs) && NoVersionPlace(xs)
    ensures HistoryBacked(files, versions, t2)
  {}

  lemma RowKept(t1: Tree, t2: Tree, xs: set<Path>, f: FileRow)
    requires RowBacked(t1, f) && SameOutside(t1, t2, xs) && At(f.key) !in xs
    ensures RowBacked(t2, f)
  {}

  /** Rows keep their content when only version places change. */
  lemma RowsKept(files: map<string, FileRow>, dirs: map<string, DirRow>, id: string, t1: Tree, t2: Tree, xs: set<Path>)
    requires UserPaths(files, dirs) && SameOutside(t1, t2, xs) && OthersBacked(files, id, t1)
    requires forall p | p in xs :: |p| >= 3 && p[2] == VERSIONS
    ensures OthersBacked(files, id, t2)
    ensures id in files && RowBacked(t1, files[id]) ==> RowBacked(t2, files[id])
  {}

  lemma LessIsWellFormed(t: Tree, xs: set<Path>)
    requires TreeSound(t)
    ensures TreeSound(t.(content := t.content - xs))
  {}

  lemma FoldersKept(dirs: map<string, DirRow>, t1: Tree, t2: Tree)
    requires FoldersSound(dirs, t1) && t1.dirs <= t2.dirs && t2.content.Keys <= t1.content.Keys
    ensures FoldersSound(dirs, t2)
  {}

  lemma Less(files: map<string, FileRow>, versions: map<string, seq<VersionRow>>, t1: Tree, t2: Tree)
    requires NothingElse(files, versions, t1) && t2.content.Keys <= t1.content.Keys
    ensures NothingElse(files, versions, t2)
  {}

  // ----- dropping and filling

  lemma DropVacates(s: State, id: string)
    requires Agreement(s) && id in s.files
    ensures Vacated(Drop(s, id), id, s.files[id].key)
  {
    var p := At(s.files[id].key);
    var t := Drop(s, id).tree;
    assert NoVersionPlace({p}) by { UserPlace(s.files[id].key); }
    HistoriesKept(s.files, s.versions, s.tree, t, {p});
    DropOthers(s, id);
    Less(s.files, s.versions, s.tree, t);
    FoldersKept(s.dirs, s.tree, t);
    LessIsWellFormed(s.tree, {p});
    DropReady(s, id);
  }

  lemma DropOthers(s: State, id: string)
    requires id in s.files && UniqueKeys(s.files, s.dirs) && RowsBacked(s.files, s.tree)
    ensures OthersBacked(s.files, id, Drop(s, id).tree)
  {}

  lemma DropReady(s: State, id: string)
    requires id in s.files && RowBacked(s.tree, s.files[id]) && TreeSound(s.tree) && FoldersSound(s.dirs, s.tree)
    ensures Ready(s.dirs, Drop(s, id).tree, s.files[id].key)
  {}

  /** What the new row must say about itself. */
  ghost predicate RowFits(s: State, id: string, row: FileRow, now: int) {
    && row.size == |row.sha.of|
    && s.clock <= now && row.updatedAt <= now
    && (id in s.files ==> s.files[id].updatedAt <= row.updatedAt)
  }

  /** Writing row and content into a ready place restores the agreement. */
  lemma PlaceKeeps(s: State, id: string, row: FileRow, now: int)
    requires Vacated(s, id, row.key) && RowFits(s, id, row, now)
    ensures Agreement(Place(s, id, row, now))
  {
    PlaceRows(s, id, row, now);
    PlaceRecords(s, id, row, now);
    PlaceDisk(s, id, row, now);
    PlaceHistory(s, id, row, now);
    PlaceOthers(s, id, row, now);
  }

  lemma PlaceRows(s: State, id: string, row: FileRow, now: int)
    requires Free(s, id, row.key) && RowFits(s, id, row, now)
    requires UserPaths(s.files, s.dirs) && UniqueKeys(s.files, s.dirs)
    requires HistoryOrdered(s.files, s.versions, s.clock)
    ensures var r := Place(s, id, row, now);
            UserPaths(r.files, r.dirs) && UniqueKeys(r.files, r.dirs) && HistoryOrdered(r.files, r.versions, r.clock)
  {
    PlaceOrdered(s, id, row, now);
  }

  lemma PlaceOrdered(s: State, id: string, row: FileRow, now: int)
    requires RowFits(s, id, row, now) && HistoryOrdered(s.files, s.versions, s.clock)
    ensures var r := Place(s, id, row, now); HistoryOrdered(r.files, r.versions, r.clock)
  {}

  lemma PlaceRecords(s: State, id: string, row: FileRow, now: int)
    requires NothingElse(s.files, s.versions, s.tree)
    requires id in s.files ==> At(s.files[id].key) !in s.tree.content
    ensures var r := Place(s, id, row, now); NothingElse(r.files, r.versions, r.tree)
  {
    var r := Place(s, id, row, now);
    forall q | q in r.tree.content ensures Recorded(r.files, r.versions, q) {
      assert r.files[id] == row;
      if q != At(row.key) {
        assert Recorded(s.files, s.versions, q);
        if j :| j in s.files && At(s.files[j].key) == q {
          assert r.files[j] == s.files[j];
        }
      }
    }
  }

  lemma PlaceDisk(s: State, id: string, row: FileRow, now: int)
    requires TreeSound(s.tree) && FoldersSound(s.dirs, s.tree) && Ready(s.dirs, s.tree, row.key)
    ensures var r := Place(s, id, row, now); TreeSound(r.tree) && FoldersSound(r.dirs, r.tree)
  {}

  lemma PlaceHistory(s: State, id: string, row: FileRow, now: int)
    requires HistoryBacked(s.files, s.versions, s.tree) && Free(s, id, row.key)
    ensures var r := Place(s, id, row, now); HistoryBacked(r.files, r.versions, r.tree)
  {}

  /** Where versions live depends on a file's pool and owner only. */
  lemma SameHomes(files: map<string, FileRow>, files': map<string, FileRow>, versions: map<string, seq<VersionRow>>,
                  t: Tree)
    requires HistoryBacked(files, versions, t) && files.Keys <= files'.Keys
    requires forall j | j in files ::
               files'[j].key.pool == files[j].key.pool && files'[j].key.owner == files[j].key.owner
    ensures HistoryBacked(files', versions, t)
  {}

  lemma PlaceOthers(s: State, id: string, row: FileRow, now: int)
    requires Free(s, id, row.key) && OthersBacked(s.files, id, s.tree) && row.size == |row.sha.of|
    ensures var r := Place(s, id, row, now); RowsBacked(r.files, r.tree)
  {}

  // ----- versions

  /** One file's history is replaced by another that is on disk. */
  lemma HistoryChanged(files: map<string, FileRow>, versions: map<string, seq<VersionRow>>, id: string,
                       vs: seq<VersionRow>, t1: Tree, t2: Tree, xs: set<Path>)
    requires HistoryBacked(files, versions, t1) && SameOutside(t1, t2, xs) && id in files
    requires forall p | p in xs :: |p| >= 4 && (p[2] == VERSIONS ==> p[3] == id)
    requires ListBacked(t2, files[id].key, id, vs)
    ensures HistoryBacked(files, versions[id := vs], t2)
  {}

  lemma TakeKeepsVacated(s: State, id: string, k: Key, j: nat)
    requires Vacated(s, id, k) && id in s.files && j < |History(s, id)|
    ensures Vacated(Take(s, id, j), id, k)
  {
    TakeRows(s, id, j);
    TakeBacked(s, id, j);
    TakeRecords(s, id, j);
    FoldersKept(s.dirs, s.tree, Take(s, id, j).tree);
    LessIsWellFormed(s.tree, {History(s, id)[j].key});
  }

  lemma TakeRows(s: State, id: string, j: nat)
    requires id in s.files && j < |History(s, id)|
    requires HistoryOrdered(s.files, s.versions, s.clock)
    ensures var r := Take(s, id, j); HistoryOrdered(r.files, r.versions, r.clock)
  {
    OrderedWithout(History(s, id), j, s.files[id].updatedAt);
  }

  lemma TakeBacked(s: State, id: string, j: nat)
    requires id in s.files && j < |History(s, id)|
    requires UserPaths(s.files, s.dirs) && HistoryOrdered(s.files, s.versions, s.clock)
    requires OthersBacked(s.files, id, s.tree) && HistoryBacked(s.files, s.versions, s.tree)
    ensures var r := Take(s, id, j); OthersBacked(r.files, id, r.tree) && HistoryBacked(r.files, r.versions, r.tree)
  {
    var vs, r, f := History(s, id), Take(s, id, j), s.files[id];
    TakeList(s.tree, r.tree, f.key, id, vs, j, f.updatedAt);
    HistoryChanged(s.files, s.versions, id, vs[..j] + vs[j + 1..], s.tree, r.tree, {vs[j].key});
    RowsKept(s.files, s.dirs, id, s.tree, r.tree, {vs[j].key});
  }

  lemma TakeList(t1: Tree, t2: Tree, k: Key, id: string, vs: seq<VersionRow>, j: nat, upTo: int)
    requires ListBacked(t1, k, id, vs) && Ordered(vs, upTo) && j < |vs|
    requires SameOutside(t1, t2, {vs[j].key})
    ensures ListBacked(t2, k, id, vs[..j] + vs[j + 1..])
    ensures vs[j].key == VersionAt(k, id, vs[j].num)
  {}

  lemma TakeRecords(s: State, id: string, j: nat)
    requires NothingElse(s.files, s.versions, s.tree) && id in s.files && j < |History(s, id)|
    ensures var r := Take(s, id, j); NothingElse(r.files, r.versions, r.tree)
  {
    var vs := History(s, id);
    var r := Take(s, id, j);
    forall p | p in r.tree.content ensures Recorded(r.files, r.versions, p) {
      assert Recorded(s.files, s.versions, p);
      if p in KeysOf(vs) {
        KeysWithout(vs, j, p);
      }
    }
  }

  lemma KeysWithout(vs: seq<VersionRow>, j: nat, p: Path)
    requires j < |vs| && p in KeysOf(vs) && p != vs[j].key
    ensures p in KeysOf(vs[..j] + vs[j + 1..])
  {
    var x :| 0 <= x < |vs| && vs[x].key == p;
    assert (vs[..j] + vs[j + 1..])[if x < j then x else x - 1] == vs[x];
  }

  /** The folders above versions and staging files are never files. */
  lemma ReservedFree(s: State, p: Path)
    requires UserPaths(s.files, s.dirs) && HistoryBacked(s.files, s.versions, s.tree)
    requires NothingElse(s.files, s.versions, s.tree)
    requires |p| <= 4 && (|p| >= 3 ==> p[2] == VERSIONS || p[2] == STAGING)
    ensures p !in s.tree.content
  {}

  lemma ReservedOpen(s: State, p: Path)
    requires UserPaths(s.files, s.dirs) && HistoryBacked(s.files, s.versions, s.tree)
    requires NothingElse(s.files, s.versions, s.tree) && TreeSound(s.tree)
    requires (|p| == 5 && p[2] == VERSIONS) || (|p| == 4 && p[2] == STAGING)
    ensures !Blocked(s.tree, Parent(p)) && p !in s.tree.dirs
    ensures TreeSound(AddDirs(s.tree, Parent(p))) && p !in AddDirs(s.tree, Parent(p)).dirs
    ensures Parent(p) in AddDirs(s.tree, Parent(p)).dirs
  {
    forall i | 0 <= i <= |Parent(p)| ensures Parent(p)[..i] !in s.tree.content {
      ReservedFree(s, Parent(p)[..i]);
    }
    AddDirsWellFormed(s.tree, Parent(p));
    ReservedNamesDiffer();
    ReservedParent(p);
  }

  lemma PushVacates(s: State, id: string)
    requires Agreement(s) && id in s.files
    ensures Vacated(Push(s, id), id, s.files[id].key)
  {
    PushRows(s, id);
    PushTree(s, id);
    PushHistory(s, id);
    PushOthers(s, id);
    PushRecords(s, id);
  }

  lemma PushRows(s: State, id: string)
    requires id in s.files && HistoryOrdered(s.files, s.versions, s.clock)
    ensures var r := Push(s, id); HistoryOrdered(r.files, r.versions, r.clock)
  {
    var vs, all := History(s, id), [NewVersion(s, id)] + History(s, id);
    assert forall i | 0 < i < |all| :: all[i] == vs[i - 1];
    assert Ordered(all, s.files[id].updatedAt);
  }

  lemma PushTree(s: State, id: string)
    requires id in s.files && UserPaths(s.files, s.dirs) && TreeSound(s.tree) && FoldersSound(s.dirs, s.tree)
    requires HistoryBacked(s.files, s.versions, s.tree) && NothingElse(s.files, s.versions, s.tree)
    requires RowBacked(s.tree, s.files[id])
    ensures var r := Push(s, id);
            TreeSound(r.tree) && FoldersSound(r.dirs, r.tree) && Ready(r.dirs, r.tree, s.files[id].key)
  {
    var k, v := s.files[id].key, NewVersion(s, id);
    ReservedOpen(s, v.key);
    PushFolders(s, id);
    DropReady(s, id);
    UserPlace(k);
    PutIsSound(AddDirs(s.tree, Parent(v.key)), At(k), v.key, s.files[id].sha.of);
    assert forall p | p in Prefixes(Parent(v.key)) && |p| >= 3 :: p[2] == VERSIONS;
  }

  lemma PutIsSound(t: Tree, gone: Path, p: Path, data: Bytes)
    requires TreeSound(t) && p != [] && p !in t.dirs && Parent(p) in t.dirs
    ensures TreeSound(t.(content := (t.content - {gone})[p := data]))
  {}

  lemma PushFolders(s: State, id: string)
    requires id in s.files && UserPaths(s.files, s.dirs) && FoldersSound(s.dirs, s.tree)
    ensures FoldersSound(s.dirs, Push(s, id).tree)
  {}

  lemma PushHistory(s: State, id: string)
    requires id in s.files && UserPath(s.files[id].key.Full()) && RowBacked(s.tree, s.files[id])
    requires HistoryBacked(s.files, s.versions, s.tree) && HistoryOrdered(s.files, s.versions, s.clock)
    ensures var r := Push(s, id); HistoryBacked(r.files, r.versions, r.tree)
  {
    var f, v, vs := s.files[id], NewVersion(s, id), History(s, id);
    var r := Push(s, id);
    var all := [v] + vs;
    UserPlace(f.key);
    var xs := {At(f.key), v.key};
    assert SameOutside(s.tree, r.tree, xs);
    forall j | j in r.versions ensures ListBacked(r.tree, r.files[j].key, j, r.versions[j]) {
      if j == id {
        forall i | 0 <= i < |all| ensures VersionBacked(r.tree, f.key, id, all[i]) {
          if i > 0 {
            assert all[i] == vs[i - 1] && vs[i - 1].num <= vs[0].num;
            assert VersionBacked(s.tree, f.key, id, vs[i - 1]);
          }
        }
      } else {
        forall i | 0 <= i < |s.versions[j]| ensures s.versions[j][i].key !in xs {
          assert VersionBacked(s.tree, s.files[j].key, j, s.versions[j][i]);
        }
        ListKept(s.tree, r.tree, xs, s.files[j].key, j, s.versions[j]);
      }
    }
  }

  lemma PushOthers(s: State, id: string)
    requires id in s.files && UserPaths(s.files, s.dirs) && UniqueKeys(s.files, s.dirs) && RowsBacked(s.files, s.tree)
    ensures OthersBacked(s.files, id, Push(s, id).tree)
  {
    var xs := {At(s.files[id].key), NewVersion(s, id).key};
    forall j | j in s.files && j != id ensures RowBacked(Push(s, id).tree, s.files[j]) {
      UserPlace(s.files[j].key);
      RowKept(s.tree, Push(s, id).tree, xs, s.files[j]);
    }
  }

  lemma PushRecords(s: State, id: string)
    requires id in s.files && NothingElse(s.files, s.versions, s.tree)
    ensures var r := Push(s, id); NothingElse(r.files, r.versions, r.tree)
  {
    var v := NewVersion(s, id);
    var r := Push(s, id);
    KeysCons(v, History(s, id));
    forall p | p in r.tree.content ensures Recorded(r.files, r.versions, p) {
      if p != v.key {
        assert Recorded(s.files, s.versions, p);
      }
    }
  }

  lemma KeysCons(v: VersionRow, vs: seq<VersionRow>)
    ensures KeysOf([v] + vs) == {v.key} + KeysOf(vs)
  {
    var all := [v] + vs;
    assert forall x | 0 <= x < |vs| :: all[x + 1] == vs[x];
    assert all[0] == v;
  }

  lemma KeysSplit(vs: seq<VersionRow>, k: nat)
    requires k <= |vs|
    ensures KeysOf(vs) == KeysOf(vs[..k]) + KeysOf(vs[k..])
  {}

  lemma KeysShape(t: Tree, k: Key, id: string, vs: seq<VersionRow>)
    requires ListBacked(t, k, id, vs)
    ensures forall p | p in KeysOf(vs) :: |p| == 5 && p[2] == VERSIONS && p[3] == id && p in t.content
  {}

  lemma CutKeepsVacated(s: State, id: string, place: Key, k: nat)
    requires Vacated(s, id, place) && id in s.files && k <= |History(s, id)|
    ensures Vacated(Cut(s, id, k), id, place)
  {
    var vs := History(s, id);
    OrderedPrefix(vs, k, s.files[id].updatedAt);
    CutBacked(s, id, k);
    CutRecords(s, id, k);
    FoldersKept(s.dirs, s.tree, Cut(s, id, k).tree);
    LessIsWellFormed(s.tree, KeysOf(vs[k..]));
  }

  lemma CutBacked(s: State, id: string, k: nat)
    requires id in s.files && k <= |History(s, id)|
    requires UserPaths(s.files, s.dirs) && HistoryOrdered(s.files, s.versions, s.clock)
    requires OthersBacked(s.files, id, s.tree) && HistoryBacked(s.files, s.versions, s.tree)
    ensures var r := Cut(s, id, k); OthersBacked(r.files, id, r.tree) && HistoryBacked(r.files, r.versions, r.tree)
  {
    var vs, r, f := History(s, id), Cut(s, id, k), s.files[id];
    var xs := KeysOf(vs[k..]);
    KeysShape(s.tree, f.key, id, vs);
    KeysSplit(vs, k);
    CutList(s.tree, r.tree, f.key, id, vs, k, f.updatedAt);
    HistoryChanged(s.files, s.versions, id, vs[..k], s.tree, r.tree, xs);
    RowsKept(s.files, s.dirs, id, s.tree, r.tree, xs);
  }

  lemma CutList(t1: Tree, t2: Tree, k: Key, id: string, vs: seq<VersionRow>, n: nat, upTo: int)
    requires ListBacked(t1, k, id, vs) && Ordered(vs, upTo) && n <= |vs|
    requires SameOutside(t1, t2, KeysOf(vs[n..]))
    ensures ListBacked(t2, k, id, vs[..n])
  {}

  lemma CutRecords(s: State, id: string, k: nat)
    requires NothingElse(s.files, s.versions, s.tree) && k <= |History(s, id)|
    ensures var r := Cut(s, id, k); NothingElse(r.files, r.versions, r.tree)
  {}

  /** After snapshotVersion the file's place is empty and everything else agrees. */
  lemma SnapshotVacates(env: Env, s: State, id: string, now: int)
    requires Agreement(s) && id in s.files
    ensures Vacated(Snapshot(env, s, id, now), id, s.files[id].key)
  {
    PushVacates(s, id);
    CutKeepsVacated(Push(s, id), id, s.files[id].key, Kept(env, s, id, now));
  }

  lemma GrowKeeps(s: State, ps: set<Path>)
    requires Agreement(s)
    requires WellFormed(Grow(s, ps).tree) && (forall p | p in ps :: DirShape(p))
    ensures Agreement(Grow(s, ps))
  {}
}
