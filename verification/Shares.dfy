/** Who may reach an item through shares: a share on the item or on any folder above
    it (internal/storage/share.go, share_sql_repository.go, file_service_sharing.go),
    and what moving a folder does to that. */
module Shares {
  import opened Base
  import opened PhysicalTree
  import opened StorageModel
  import opened Moves
  import opened MoveTree

  datatype Target = ToUser(user: string) | ToGroup(group: string) | ToLink(tokenHash: Digest)

  datatype Resource = OnFile(file: string) | OnDir(dir: string)

  datatype Share = Share(owner: string, resource: Resource, target: Target, canDownload: bool, canUpload: bool,
                         passwordHash: Option<Digest>, expiresAt: Option<int>, maxDownloads: Option<nat>,
                         downloadCount: nat, maxUploadSize: Option<nat>, revokedAt: Option<int>)

  datatype ShareError = Revoked | Expired | Exhausted

  /** Share.checkLifecycle; a share is still good at the moment it expires. */
  function CheckLifecycle(sh: Share, now: int): Option<ShareError> {
    if sh.revokedAt.Some? then Some(Revoked)
    else if sh.expiresAt.Some? && now > sh.expiresAt.value then Some(Expired)
    else if sh.maxDownloads.Some? && sh.downloadCount >= sh.maxDownloads.value then Some(Exhausted)
    else None
  }

  /** The tables sharing reads beside the folders: shares by id, and who is in which
      group. */
  datatype Book = Book(shares: map<string, Share>, members: set<(string, string)>)

  predicate Addresses(b: Book, sh: Share, user: string) {
    match sh.target
    case ToUser(u) => u == user
    case ToGroup(g) => (user, g) in b.members
    case ToLink(_) => false
  }

  /** The condition of the access queries: here a share is over at the moment it
      expires. */
  predicate GrantsRead(b: Book, sh: Share, user: string, on: Resource, now: int) {
    && sh.resource == on && sh.canDownload && Addresses(b, sh, user)
    && sh.revokedAt.None? && (sh.expiresAt.None? || sh.expiresAt.value > now)
  }

  predicate GrantsUpload(b: Book, sh: Share, user: string, on: Resource, now: int) {
    GrantsRead(b, sh, user, on, now) && sh.canUpload
  }

  predicate HasAccess(b: Book, user: string, on: Resource, now: int) {
    exists i | i in b.shares :: GrantsRead(b, b.shares[i], user, on, now)
  }

  // ----- the folders above an item

  /** A folder row of this pool and owner whose path is a prefix of parent. */
  predicate IsAbove(k: Key, pool: string, owner: string, parent: Path) {
    k.pool == pool && k.owner == owner && k.Full() <= parent
  }

  /** The rows walkAncestorDirectories visits, nearest first. */
  ghost function Ancestors(dirs: map<string, DirRow>, pool: string, owner: string, parent: Path): seq<string> {
    if parent == [] then []
    else
      var rest := Ancestors(dirs, pool, owner, Parent(parent));
      match FindDir(dirs, Key(pool, owner, Parent(parent), parent[|parent| - 1]))
      case None => rest
      case Some(id) => [id] + rest
  }

  /** The walk visits exactly the folders whose path is a segment prefix. */
  lemma {:induction false} AncestorsExact(files: map<string, FileRow>, dirs: map<string, DirRow>, pool: string,
                                          owner: string, parent: Path, id: string)
    requires UniqueKeys(files, dirs)
    ensures id in Ancestors(dirs, pool, owner, parent) <==> id in dirs && IsAbove(dirs[id].key, pool, owner, parent)
    decreases |parent|
  {
    if parent == [] {
      assert id in dirs ==> |dirs[id].key.Full()| > 0;
    } else {
      AncestorsExact(files, dirs, pool, owner, Parent(parent), id);
      var k := Key(pool, owner, Parent(parent), parent[|parent| - 1]);
      assert k.Full() == parent;
      if id in dirs && IsAbove(dirs[id].key, pool, owner, parent) && dirs[id].key.Full() != parent {
        assert dirs[id].key.Full() <= Parent(parent);
      }
      if id in dirs && dirs[id].key.Full() == parent {
        FullSplits(dirs[id].key, k);
      }
    }
  }

  lemma FullSplits(a: Key, b: Key)
    requires a.Full() == b.Full()
    ensures a.parent == b.parent && a.name == b.name
  {
    assert Parent(a.Full()) == a.parent && Parent(b.Full()) == b.parent;
    assert a.Full()[|a.Full()| - 1] == a.name;
  }

  /** Every visited folder lies strictly below the ones visited after it. */
  lemma {:induction false} NearestFirst(files: map<string, FileRow>, dirs: map<string, DirRow>, pool: string,
                                        owner: string, parent: Path, i: nat, j: nat)
    requires UniqueKeys(files, dirs)
    requires i < j < |Ancestors(dirs, pool, owner, parent)|
    ensures var a := Ancestors(dirs, pool, owner, parent);
            a[i] in dirs && a[j] in dirs && dirs[a[j]].key.Full() < dirs[a[i]].key.Full()
    decreases |parent|
  {
    var all := Ancestors(dirs, pool, owner, parent);
    var rest := Ancestors(dirs, pool, owner, Parent(parent));
    if |all| == |rest| {
      NearestFirst(files, dirs, pool, owner, Parent(parent), i, j);
    } else if i > 0 {
      NearestFirst(files, dirs, pool, owner, Parent(parent), i - 1, j - 1);
    } else {
      AncestorsExact(files, dirs, pool, owner, Parent(parent), all[j]);
      assert all[j] in rest;
      assert dirs[all[0]].key.Full() == parent;
    }
  }

  // ----- reading through shares

  /** Some folder above grants access; trashed folder rows count too. */
  predicate ReadsFromAbove(dirs: map<string, DirRow>, pool: string, b: Book, user: string, owner: string,
                           parent: Path, now: int) {
    exists d | d in dirs && IsAbove(dirs[d].key, pool, owner, parent) :: HasAccess(b, user, OnDir(d), now)
  }

  predicate ReadsFile(files: map<string, FileRow>, dirs: map<string, DirRow>, pool: string, b: Book, user: string,
                      f: string, now: int)
    requires f in files
  {
    || HasAccess(b, user, OnFile(f), now)
    || ReadsFromAbove(dirs, pool, b, user, files[f].key.owner, files[f].key.parent, now)
  }

  predicate ReadsFolder(dirs: map<string, DirRow>, pool: string, b: Book, user: string, d: string, now: int)
    requires d in dirs
  {
    || HasAccess(b, user, OnDir(d), now)
    || ReadsFromAbove(dirs, pool, b, user, dirs[d].key.owner, dirs[d].key.parent, now)
  }

  /** Who reads a file, share by share: somebody a share lets download, of the file or of a
      folder of this pool and owner on the way to it, that is neither revoked nor over. */
  lemma ReadsFileByShare(files: map<string, FileRow>, dirs: map<string, DirRow>, pool: string, b: Book, user: string,
                         f: string, now: int)
    requires f in files
    ensures ReadsFile(files, dirs, pool, b, user, f, now) <==> exists i | i in b.shares ::
              && b.shares[i].revokedAt.None? && (b.shares[i].expiresAt.Some? ==> now < b.shares[i].expiresAt.value)
              && b.shares[i].canDownload
              && (match b.shares[i].target
                  case ToUser(u) => u == user
                  case ToGroup(g) => (user, g) in b.members
                  case ToLink(_) => false)
              && Covers(files, dirs, pool, b.shares[i].resource, f)
  {
    ReadsByShare(dirs, pool, b, user, OnFile(f), files[f].key, now);
  }

  lemma ReadsFolderByShare(dirs: map<string, DirRow>, pool: string, b: Book, user: string, x: string, now: int)
    requires x in dirs
    ensures ReadsFolder(dirs, pool, b, user, x, now) <==> exists i | i in b.shares ::
              && b.shares[i].revokedAt.None? && (b.shares[i].expiresAt.Some? ==> now < b.shares[i].expiresAt.value)
              && b.shares[i].canDownload
              && (match b.shares[i].target
                  case ToUser(u) => u == user
                  case ToGroup(g) => (user, g) in b.members
                  case ToLink(_) => false)
              && (match b.shares[i].resource
                  case OnFile(_) => false
                  case OnDir(d) =>
                    d == x || (d in dirs && IsAbove(dirs[d].key, pool, dirs[x].key.owner, dirs[x].key.parent)))
  {
    ReadsByShare(dirs, pool, b, user, OnDir(x), dirs[x].key, now);
  }

  /** The share is on the file, or on a folder on the way to it. */
  predicate Covers(files: map<string, FileRow>, dirs: map<string, DirRow>, pool: string, on: Resource, f: string)
    requires f in files
  {
    match on
    case OnFile(x) => x == f
    case OnDir(d) => d in dirs && IsAbove(dirs[d].key, pool, files[f].key.owner, files[f].key.parent)
  }

  /** A share that is revoked, over, or without the right to download might as well not be there,
      and a link says nothing about anybody with an account. */
  lemma DeadShareIsNoShare(files: map<string, FileRow>, dirs: map<string, DirRow>, pool: string, b: Book, i: string,
                           user: string, f: string, now: int)
    requires f in files && i in b.shares
    requires var sh := b.shares[i];
             || sh.revokedAt.Some? || (sh.expiresAt.Some? && sh.expiresAt.value <= now) || !sh.canDownload
             || sh.target.ToLink? || !Covers(files, dirs, pool, sh.resource, f)
    ensures ReadsFile(files, dirs, pool, b, user, f, now)
       <==> ReadsFile(files, dirs, pool, b.(shares := b.shares - {i}), user, f, now)
  {
    var b' := b.(shares := b.shares - {i});
    ReadsFileByShare(files, dirs, pool, b, user, f, now);
    ReadsFileByShare(files, dirs, pool, b', user, f, now);
    assert forall j | j in b.shares && j != i :: j in b'.shares && b'.shares[j] == b.shares[j];
  }

  /** Revoking the only share that covers a file takes it from everybody. */
  lemma RevokingTheOnlyShare(files: map<string, FileRow>, dirs: map<string, DirRow>, pool: string, b: Book, i: string,
                             user: string, f: string, at: int, now: int)
    requires f in files && i in b.shares
    requires forall j | j in b.shares && Covers(files, dirs, pool, b.shares[j].resource, f) :: j == i
    ensures var revoked := b.shares[i := b.shares[i].(revokedAt := Some(at))];
            !ReadsFile(files, dirs, pool, b.(shares := revoked), user, f, now)
  {
    var b' := b.(shares := b.shares[i := b.shares[i].(revokedAt := Some(at))]);
    ReadsFileByShare(files, dirs, pool, b', user, f, now);
    assert forall j | j in b'.shares && j != i :: b'.shares[j] == b.shares[j];
  }

  lemma ReadsByShare(dirs: map<string, DirRow>, pool: string, b: Book, user: string, on: Resource, k: Key, now: int)
    ensures HasAccess(b, user, on, now) || ReadsFromAbove(dirs, pool, b, user, k.owner, k.parent, now)
       <==> exists i | i in b.shares ::
              && b.shares[i].revokedAt.None? && (b.shares[i].expiresAt.Some? ==> now < b.shares[i].expiresAt.value)
              && b.shares[i].canDownload
              && (match b.shares[i].target
                  case ToUser(u) => u == user
                  case ToGroup(g) => (user, g) in b.members
                  case ToLink(_) => false)
              && (b.shares[i].resource == on
                  || (b.shares[i].resource.OnDir? && b.shares[i].resource.dir in dirs
                      && IsAbove(dirs[b.shares[i].resource.dir].key, pool, k.owner, k.parent)))
  {
    forall i | i in b.shares
      ensures GrantsRead(b, b.shares[i], user, b.shares[i].resource, now) <==>
              && b.shares[i].revokedAt.None? && (b.shares[i].expiresAt.Some? ==> now < b.shares[i].expiresAt.value)
              && b.shares[i].canDownload
              && (match b.shares[i].target
                  case ToUser(u) => u == user
                  case ToGroup(g) => (user, g) in b.members
                  case ToLink(_) => false)
    {}
    if ReadsFromAbove(dirs, pool, b, user, k.owner, k.parent, now) {
      var d :| d in dirs && IsAbove(dirs[d].key, pool, k.owner, k.parent) && HasAccess(b, user, OnDir(d), now);
      var i :| i in b.shares && GrantsRead(b, b.shares[i], user, OnDir(d), now);
      assert b.shares[i].resource == OnDir(d);
    }
  }

  /** Some folder at or below the one of row id, and above parent, grants access. */
  predicate ReadsFromWithin(dirs: map<string, DirRow>, id: string, pool: string, b: Book, user: string,
                            owner: string, parent: Path, now: int)
    requires id in dirs
  {
    exists d | d in dirs && (d == id || Inside(dirs[id].key, dirs[d].key))
               && IsAbove(dirs[d].key, pool, owner, parent) ::
      HasAccess(b, user, OnDir(d), now)
  }

  /** A share on a folder that was already below the destination k', on the way to this
      path. */
  ghost predicate ReadsFromStray(dirs: map<string, DirRow>, id: string, k': Key, b: Book, user: string, parent: Path,
                                 now: int)
    requires id in dirs
  {
    exists d | d in dirs && d != id && !Inside(dirs[id].key, dirs[d].key) && Inside(k', dirs[d].key)
               && IsAbove(dirs[d].key, k'.pool, k'.owner, parent) ::
      HasAccess(b, user, OnDir(d), now)
  }

  /** A folder above an item of the subtree is in the subtree, or above its root. */
  lemma AboveSplits(dirs: map<string, DirRow>, files: map<string, FileRow>, id: string, owner: string, parent: Path,
                    d: string)
    requires UniqueKeys(files, dirs) && id in dirs && d in dirs
    requires dirs[id].key.owner == owner && dirs[id].key.Full() <= parent
    requires d != id && !Inside(dirs[id].key, dirs[d].key)
    ensures IsAbove(dirs[d].key, dirs[id].key.pool, owner, parent)
       <==> IsAbove(dirs[d].key, dirs[id].key.pool, owner, dirs[id].key.parent)
  {
    var k, e := dirs[id].key, dirs[d].key;
    assert k.parent <= k.Full();
    assert e.parent == e.Full()[..|e.parent|] && k.parent == k.Full()[..|k.parent|];
    if IsAbove(e, k.pool, owner, parent) && e.Full() == k.Full() {
      FullSplits(e, k);
    }
  }

  /** What the folders above an item of a subtree grant: some at or below the subtree's
      root, the others above it. */
  lemma ReadsSplits(files: map<string, FileRow>, dirs: map<string, DirRow>, b: Book, user: string, id: string,
                    item: Key, now: int)
    requires UniqueKeys(files, dirs) && id in dirs && Inside(dirs[id].key, item)
    ensures var k := dirs[id].key;
            && (ReadsFromAbove(dirs, k.pool, b, user, k.owner, item.parent, now)
                <==> || ReadsFromWithin(dirs, id, k.pool, b, user, k.owner, item.parent, now)
                     || ReadsFromAbove(dirs, k.pool, b, user, k.owner, k.parent, now))
  {
    var k, parent := dirs[id].key, item.parent;
    forall d | d in dirs && d != id && !Inside(k, dirs[d].key)
      ensures IsAbove(dirs[d].key, k.pool, k.owner, parent) <==> IsAbove(dirs[d].key, k.pool, k.owner, k.parent)
    {
      AboveSplits(dirs, files, id, k.owner, parent, d);
    }
    forall d | d in dirs && IsAbove(dirs[d].key, k.pool, k.owner, k.parent)
      ensures IsAbove(dirs[d].key, k.pool, k.owner, parent)
    {
      assert k.parent <= k.Full() <= parent;
    }
  }

  /** Within the moved subtree, who is above whom does not change. */
  lemma WithinKept(dirs: map<string, DirRow>, id: string, k': Key, d: string, item: Key)
    requires id in dirs && d in dirs && (d == id || Inside(dirs[id].key, dirs[d].key))
    requires k'.pool == dirs[id].key.pool && k'.owner == dirs[id].key.owner
    requires Inside(dirs[id].key, item)
    ensures var k := dirs[id].key;
            var moved := if d == id then k' else Carried(k, k', dirs[d].key);
            && (IsAbove(moved, k.pool, k.owner, Carried(k, k', item).parent)
                <==> IsAbove(dirs[d].key, k.pool, k.owner, item.parent))
  {
    var k, e := dirs[id].key, dirs[d].key;
    var rest := item.parent[|k.Full()|..];
    assert item.parent == k.Full() + rest && Carried(k, k', item).parent == k'.Full() + rest;
    if d == id {
      assert k'.Full() <= k'.Full() + rest;
    } else {
      var sub := e.parent[|k.Full()|..] + [e.name];
      assert e.Full() == k.Full() + sub && Carried(k, k', e).Full() == k'.Full() + sub;
      PrefixSame(k.Full(), sub, rest);
      PrefixSame(k'.Full(), sub, rest);
    }
  }

  lemma PrefixSame(a: Path, x: Path, y: Path)
    ensures a + x <= a + y <==> x <= y
  {
    if a + x <= a + y {
      assert x == (a + x)[|a|..] && y == (a + y)[|a|..];
      assert forall i | 0 <= i < |x| :: x[i] == (a + x)[|a| + i] == (a + y)[|a| + i] == y[i];
    }
  }

  /** Access follows a folder move: for a file of the moved subtree, what shares on it
      and at or below the folder grant stays; what shares above grant becomes what those
      above the new place grant, folders found below the destination included. */
  lemma AccessFollowsMove(s: State, b: Book, user: string, id: string, k': Key, f: string, now: int)
    requires Agreement(s) && Movable(s, id, k')
    requires f in s.files && Inside(s.dirs[id].key, s.files[f].key)
    ensures var k, s' := s.dirs[id].key, FolderMoved(s, id, k');
            && f in s'.files
            && (ReadsFile(s.files, s.dirs, k.pool, b, user, f, now)
                <==> || HasAccess(b, user, OnFile(f), now)
                     || ReadsFromWithin(s.dirs, id, k.pool, b, user, k.owner, s.files[f].key.parent, now)
                     || ReadsFromAbove(s.dirs, k.pool, b, user, k.owner, k.parent, now))
            && (ReadsFile(s'.files, s'.dirs, k.pool, b, user, f, now)
                <==> || HasAccess(b, user, OnFile(f), now)
                     || ReadsFromWithin(s.dirs, id, k.pool, b, user, k.owner, s.files[f].key.parent, now)
                     || ReadsFromStray(s.dirs, id, k', b, user, s'.files[f].key.parent, now)
                     || ReadsFromAbove(s.dirs, k.pool, b, user, k.owner, k'.parent, now))
  {
    var k, s' := s.dirs[id].key, FolderMoved(s, id, k');
    MovablePlaces(s, id, k');
    FullsApart(s, id, k');
    ReadsSplits(s.files, s.dirs, b, user, id, s.files[f].key, now);
    MovedReads(s.files, s.dirs, b, user, id, k', s.files[f].key, now);
  }

  /** Folders above a file are looked up in one pool; when that is not the folder's own, they
      are those on the file's new path that have always been there. */
  lemma AccessInOtherPool(s: State, b: Book, user: string, id: string, k': Key, f: string, pool: string, now: int)
    requires Agreement(s) && Movable(s, id, k') && pool != s.dirs[id].key.pool && f in s.files
    ensures var s' := FolderMoved(s, id, k');
            && f in s'.files
            && (ReadsFile(s'.files, s'.dirs, pool, b, user, f, now)
                <==> || HasAccess(b, user, OnFile(f), now)
                     || ReadsFromAbove(s.dirs, pool, b, user, s.files[f].key.owner, s'.files[f].key.parent, now))
  {
    var s' := FolderMoved(s, id, k');
    MovedRows(s, id, k');
    assert s'.files[f].key.owner == s.files[f].key.owner;
    OtherPoolReads(s.dirs, id, k', b, user, pool, s.files[f].key.owner, s'.files[f].key.parent, now);
  }

  /** The same for folders, the one that moves included. */
  lemma FolderAccessInOtherPool(s: State, b: Book, user: string, id: string, k': Key, d: string, pool: string,
                                now: int)
    requires Agreement(s) && Movable(s, id, k') && pool != s.dirs[id].key.pool && d in s.dirs
    ensures var s' := FolderMoved(s, id, k');
            && d in s'.dirs
            && (ReadsFolder(s'.dirs, pool, b, user, d, now)
                <==> || HasAccess(b, user, OnDir(d), now)
                     || ReadsFromAbove(s.dirs, pool, b, user, s.dirs[d].key.owner, s'.dirs[d].key.parent, now))
  {
    MovedRows(s, id, k');
    OtherPoolFolder(s.dirs, id, k', b, user, pool, d, now);
  }

  lemma OtherPoolFolder(dirs: map<string, DirRow>, id: string, k': Key, b: Book, user: string, pool: string,
                        d: string, now: int)
    requires id in dirs && d in dirs && k'.pool == dirs[id].key.pool && k'.owner == dirs[id].key.owner
    requires pool != k'.pool
    ensures var dirs' := CarriedDirs(dirs, id, dirs[id].key, k');
            && (ReadsFolder(dirs', pool, b, user, d, now)
                <==> || HasAccess(b, user, OnDir(d), now)
                     || ReadsFromAbove(dirs, pool, b, user, dirs[d].key.owner, dirs'[d].key.parent, now))
  {
    var dirs' := CarriedDirs(dirs, id, dirs[id].key, k');
    OtherPoolReads(dirs, id, k', b, user, pool, dirs[d].key.owner, dirs'[d].key.parent, now);
  }

  lemma MovedRows(s: State, id: string, k': Key)
    requires Agreement(s) && Movable(s, id, k')
    ensures var s' := FolderMoved(s, id, k');
            && s'.files == CarriedFiles(s.files, s.dirs[id].key, k')
            && s'.dirs == CarriedDirs(s.dirs, id, s.dirs[id].key, k')
  {
    MovablePlaces(s, id, k');
  }

  lemma OtherPoolReads(dirs: map<string, DirRow>, id: string, k': Key, b: Book, user: string, pool: string,
                       owner: string, parent: Path, now: int)
    requires id in dirs && k'.pool == dirs[id].key.pool && pool != k'.pool
    ensures ReadsFromAbove(CarriedDirs(dirs, id, dirs[id].key, k'), pool, b, user, owner, parent, now)
       <==> ReadsFromAbove(dirs, pool, b, user, owner, parent, now)
  {
    var dirs' := CarriedDirs(dirs, id, dirs[id].key, k');
    forall d | d in dirs
      ensures IsAbove(dirs'[d].key, pool, owner, parent) <==> IsAbove(dirs[d].key, pool, owner, parent)
    {}
  }

  /** The same for the folder moved and for every folder below it. */
  lemma FolderAccessFollowsMove(s: State, b: Book, user: string, id: string, k': Key, d: string, now: int)
    requires Agreement(s) && Movable(s, id, k')
    requires d in s.dirs && (d == id || Inside(s.dirs[id].key, s.dirs[d].key))
    ensures var k, s' := s.dirs[id].key, FolderMoved(s, id, k');
            && d in s'.dirs
            && (ReadsFolder(s.dirs, k.pool, b, user, d, now)
                <==> || HasAccess(b, user, OnDir(d), now)
                     || (d != id && ReadsFromWithin(s.dirs, id, k.pool, b, user, k.owner, s.dirs[d].key.parent, now))
                     || ReadsFromAbove(s.dirs, k.pool, b, user, k.owner, k.parent, now))
            && (ReadsFolder(s'.dirs, k.pool, b, user, d, now)
                <==> || HasAccess(b, user, OnDir(d), now)
                     || (d != id && ReadsFromWithin(s.dirs, id, k.pool, b, user, k.owner, s.dirs[d].key.parent, now))
                     || (d != id && ReadsFromStray(s.dirs, id, k', b, user, s'.dirs[d].key.parent, now))
                     || ReadsFromAbove(s.dirs, k.pool, b, user, k.owner, k'.parent, now))
  {
    MovablePlaces(s, id, k');
    FullsApart(s, id, k');
    if d == id {
      AboveAgrees(s.dirs, b, user, id, k', now);
    } else {
      ReadsSplits(s.files, s.dirs, b, user, id, s.dirs[d].key, now);
      MovedReads(s.files, s.dirs, b, user, id, k', s.dirs[d].key, now);
    }
  }

  lemma CarriedInside(k: Key, k': Key, item: Key)
    requires k'.pool == k.pool && k'.owner == k.owner && Inside(k, item)
    ensures Inside(k', Carried(k, k', item))
  {}

  /** What the folders above a carried item grant, on the two tables alone. */
  lemma MovedReads(files: map<string, FileRow>, dirs: map<string, DirRow>, b: Book, user: string, id: string,
                   k': Key, item: Key, now: int)
    requires id in dirs && Inside(dirs[id].key, item)
    requires k'.pool == dirs[id].key.pool && k'.owner == dirs[id].key.owner
    requires KeysStayUnique(files, dirs, id, k')
    requires !(k'.Full() <= dirs[id].key.Full()) && !(dirs[id].key.Full() <= k'.Full())
    ensures var k := dirs[id].key;
            var dirs' := CarriedDirs(dirs, id, k, k');
            && (ReadsFromAbove(dirs', k.pool, b, user, k.owner, Carried(k, k', item).parent, now)
                <==> || ReadsFromWithin(dirs, id, k.pool, b, user, k.owner, item.parent, now)
                     || ReadsFromStray(dirs, id, k', b, user, Carried(k, k', item).parent, now)
                     || ReadsFromAbove(dirs, k.pool, b, user, k.owner, k'.parent, now))
  {
    var k := dirs[id].key;
    var files', dirs' := CarriedFiles(files, k, k'), CarriedDirs(dirs, id, k, k');
    CarriedInside(k, k', item);
    ReadsSplits(files', dirs', b, user, id, Carried(k, k', item), now);
    WithinAgrees(dirs, b, user, id, k', item, now);
    AboveAgrees(dirs, b, user, id, k', now);
  }

  lemma WithinAgrees(dirs: map<string, DirRow>, b: Book, user: string, id: string, k': Key, item: Key, now: int)
    requires id in dirs && Inside(dirs[id].key, item)
    requires k'.pool == dirs[id].key.pool && k'.owner == dirs[id].key.owner
    ensures var k := dirs[id].key;
            && (ReadsFromWithin(CarriedDirs(dirs, id, k, k'), id, k.pool, b, user, k.owner,
                                Carried(k, k', item).parent, now)
                <==> || ReadsFromWithin(dirs, id, k.pool, b, user, k.owner, item.parent, now)
                     || ReadsFromStray(dirs, id, k', b, user, Carried(k, k', item).parent, now))
  {
    var k := dirs[id].key;
    var dirs' := CarriedDirs(dirs, id, k, k');
    assert forall d | d in dirs && d != id && !Inside(k, dirs[d].key) :: dirs'[d].key == dirs[d].key;
    forall d | d in dirs && (d == id || Inside(k, dirs[d].key))
      ensures d == id || Inside(k', dirs'[d].key)
      ensures IsAbove(dirs'[d].key, k.pool, k.owner, Carried(k, k', item).parent)
         <==> IsAbove(dirs[d].key, k.pool, k.owner, item.parent)
    {
      WithinKept(dirs, id, k', d, item);
    }
  }

  /** Nothing of the subtree is above the new place, and the rest has not moved. */
  lemma AboveAgrees(dirs: map<string, DirRow>, b: Book, user: string, id: string, k': Key, now: int)
    requires id in dirs && k'.pool == dirs[id].key.pool && k'.owner == dirs[id].key.owner
    requires !(dirs[id].key.Full() <= k'.Full())
    ensures var k := dirs[id].key;
            && (ReadsFromAbove(CarriedDirs(dirs, id, k, k'), k.pool, b, user, k.owner, k'.parent, now)
                <==> ReadsFromAbove(dirs, k.pool, b, user, k.owner, k'.parent, now))
  {}
}
