/** Access through shares as FileService carries it out
    (internal/storage/file_service_sharing.go). */
module Sharing {
  import opened Base
  import opened PathStrings
  import opened PhysicalTree
  import opened StorageModel
  import opened Uploads
  import opened Operations
  import opened Service
  import opened Shares
  import opened Downloads
  import opened LimitReader

  datatype LinkError =
    | NoSuchShare | NotUsable(why: ShareError) | PasswordRequired | PasswordIncorrect | DownloadNotAllowed
    | UploadNotAllowed | NotAllowed | NoSuchItem | BadPath | Spent | SharingOff | LinksOff
    | Rejected(error: Error)

  datatype Reply<+T> = Granted(value: T) | Denied(why: LinkError)

  /** The upload grants on the folder itself and on every folder above it that is not
      in the trash. */
  ghost predicate Grant(s: State, pool: string, b: Book, user: string, dir: string, i: string, now: int)
    requires dir in s.dirs
  {
    && i in b.shares
    && (GrantsUpload(b, b.shares[i], user, OnDir(dir), now)
        || exists d | d in s.dirs && IsAbove(s.dirs[d].key, pool, s.dirs[dir].key.owner, s.dirs[dir].key.parent) ::
             s.dirs[d].deletedAt.None? && GrantsUpload(b, b.shares[i], user, OnDir(d), now))
  }

  /** A grant on the folder itself or on one of these that is not in the trash. */
  ghost predicate GrantAmong(dirs: map<string, DirRow>, b: Book, user: string, dir: string, above: seq<string>,
                             i: string, now: int)
    requires forall d | d in above :: d in dirs
  {
    && i in b.shares
    && (GrantsUpload(b, b.shares[i], user, OnDir(dir), now)
        || exists d | d in above :: dirs[d].deletedAt.None? && GrantsUpload(b, b.shares[i], user, OnDir(d), now))
  }

  lemma GrantAmongNext(dirs: map<string, DirRow>, b: Book, user: string, dir: string, above: seq<string>, n: nat,
                       now: int)
    requires (forall d | d in above :: d in dirs) && n < |above|
    ensures forall d | d in above[..n] + above[..n + 1] :: d in dirs
    ensures forall i :: GrantAmong(dirs, b, user, dir, above[..n + 1], i, now) <==>
              (GrantAmong(dirs, b, user, dir, above[..n], i, now)
               || (i in b.shares && dirs[above[n]].deletedAt.None?
                   && GrantsUpload(b, b.shares[i], user, OnDir(above[n]), now)))
  {}

  /** a allows at least as large uploads as c; no limit allows all. */
  predicate AtLeast(a: Option<nat>, c: Option<nat>) {
    a.None? || (c.Some? && c.value <= a.value)
  }

  class SharingService {
    const svc: FileService
    const enabled: bool
    const linksEnabled: bool
    var book: Book

    constructor (svc: FileService, enabled: bool, linksEnabled: bool, book: Book)
      ensures this.svc == svc && this.enabled == enabled && this.linksEnabled == linksEnabled && this.book == book
    {
      this.svc, this.enabled, this.linksEnabled, this.book := svc, enabled, linksEnabled, book;
    }

    // ----- walking up

    /** walkAncestorDirectories: nearest first, in the default pool, skipping folders
        without a row of their own. */
    method WalkAncestors(owner: string, parent: Path) returns (visited: seq<string>)
      requires UniqueKeys(svc.files, svc.directories)
      ensures visited == Ancestors(svc.directories, svc.env.defaultPool, owner, parent)
    {
      ghost var pool := svc.env.defaultPool;
      visited := [];
      assert parent[..|parent|] == parent;
      var i := |parent|;
      while i >= 1
        invariant 0 <= i <= |parent|
        invariant visited + Ancestors(svc.directories, pool, owner, parent[..i])
               == Ancestors(svc.directories, pool, owner, parent)
      {
        assert Parent(parent[..i]) == parent[..i - 1];
        var dir := svc.FindDirRow(Key(svc.env.defaultPool, owner, parent[..i - 1], parent[i - 1]));
        if dir.Some? {
          visited := visited + [dir.value];
        }
        i := i - 1;
      }
    }

    /** HasFileAccess and HasDirectoryAccess. */
    method QueryAccess(user: string, on: Resource, now: int) returns (ok: bool)
      ensures ok == HasAccess(book, user, on, now)
    {
      ok := exists i | i in book.shares :: GrantsRead(book, book.shares[i], user, on, now);
    }

    /** hasShareAccessToAncestorDirectories: stops at the first folder that grants. */
    method HasShareAccessToAncestors(user: string, owner: string, parent: Path, now: int) returns (found: bool)
      requires UniqueKeys(svc.files, svc.directories)
      ensures found == ReadsFromAbove(svc.directories, svc.env.defaultPool, book, user, owner, parent, now)
    {
      found := false;
      var visited := WalkAncestors(owner, parent);
      forall d
        ensures d in visited <==>
                  d in svc.directories && IsAbove(svc.directories[d].key, svc.env.defaultPool, owner, parent)
      {
        AncestorsExact(svc.files, svc.directories, svc.env.defaultPool, owner, parent, d);
      }
      var i := 0;
      while i < |visited| && !found
        invariant 0 <= i <= |visited|
        invariant found <==> i > 0 && HasAccess(book, user, OnDir(visited[i - 1]), now)
        invariant forall j | 0 <= j < (if found then i - 1 else i) :: !HasAccess(book, user, OnDir(visited[j]), now)
      {
        found := QueryAccess(user, OnDir(visited[i]), now);
        i := i + 1;
      }
    }

    /** hasShareAccessToFile. */
    method HasShareAccessToFile(user: string, f: string, now: int) returns (ok: bool)
      requires UniqueKeys(svc.files, svc.directories) && f in svc.files
      ensures ok <==> enabled && ReadsFile(svc.files, svc.directories, svc.env.defaultPool, book, user, f, now)
      ensures ok <==> enabled && exists i | i in book.shares ::
                && book.shares[i].revokedAt.None?
                && (book.shares[i].expiresAt.Some? ==> now < book.shares[i].expiresAt.value)
                && book.shares[i].canDownload
                && (match book.shares[i].target
                    case ToUser(u) => u == user
                    case ToGroup(g) => (user, g) in book.members
                    case ToLink(_) => false)
                && Covers(svc.files, svc.directories, svc.env.defaultPool, book.shares[i].resource, f)
    {
      ReadsFileByShare(svc.files, svc.directories, svc.env.defaultPool, book, user, f, now);
      if !enabled {
        return false;
      }
      ok := QueryAccess(user, OnFile(f), now);
      if !ok {
        ok := HasShareAccessToAncestors(user, svc.files[f].key.owner, svc.files[f].key.parent, now);
      }
    }

    /** hasShareAccessToDirectory. */
    method HasShareAccessToDirectory(user: string, d: string, now: int) returns (ok: bool)
      requires UniqueKeys(svc.files, svc.directories) && d in svc.directories
      ensures var k := svc.directories[d].key;
              ok <==> enabled && (HasAccess(book, user, OnDir(d), now)
                                  || ReadsFromAbove(svc.directories, svc.env.defaultPool, book, user, k.owner,
                                                    k.parent, now))
      ensures ok <==> enabled && exists i | i in book.shares ::
                && book.shares[i].revokedAt.None?
                && (book.shares[i].expiresAt.Some? ==> now < book.shares[i].expiresAt.value)
                && book.shares[i].canDownload
                && (match book.shares[i].target
                    case ToUser(u) => u == user
                    case ToGroup(g) => (user, g) in book.members
                    case ToLink(_) => false)
                && (match book.shares[i].resource
                    case OnFile(_) => false
                    case OnDir(x) =>
                      || x == d
                      || (x in svc.directories
                          && IsAbove(svc.directories[x].key, svc.env.defaultPool, svc.directories[d].key.owner,
                                     svc.directories[d].key.parent)))
    {
      ReadsFolderByShare(svc.directories, svc.env.defaultPool, book, user, d, now);
      if !enabled {
        return false;
      }
      ok := QueryAccess(user, OnDir(d), now);
      if !ok {
        ok := HasShareAccessToAncestors(user, svc.directories[d].key.owner, svc.directories[d].key.parent, now);
      }
    }

    /** Download: the owner, or whoever a share lets read, gets the recorded content. */
    method Download(requester: string, f: string, now: int) returns (r: Reply<Bytes>)
      requires Agreement(svc.St())
      ensures r.Granted? <==> (f in svc.files &&
                (svc.files[f].key.owner == requester
                 || (enabled && ReadsFile(svc.files, svc.directories, svc.env.defaultPool, book, requester, f, now))))
      ensures r.Granted? ==> r.value == svc.files[f].sha.of
      ensures r.Denied? ==> r.why == if f in svc.files then NotAllowed else NoSuchItem
    {
      if f !in svc.files {
        return Denied(NoSuchItem);
      }
      if svc.files[f].key.owner != requester {
        var ok := HasShareAccessToFile(requester, f, now);
        if !ok {
          return Denied(NotAllowed);
        }
      }
      var content := ReadContent(f);
      r := Granted(content);
    }

    // ----- uploading into someone else's folder

    method ListUploadShares(user: string, dir: string, now: int) returns (ids: seq<string>)
      ensures forall i :: i in ids <==> i in book.shares && GrantsUpload(book, book.shares[i], user, OnDir(dir), now)
    {
      ids := FileService.Enumerate(set i | i in book.shares
                                           && GrantsUpload(book, book.shares[i], user, OnDir(dir), now));
    }

    /** uploadGrants. */
    method UploadGrants(user: string, dir: string, now: int) returns (grants: seq<string>)
      requires UniqueKeys(svc.files, svc.directories) && dir in svc.directories
      ensures forall i :: i in grants <==> Grant(svc.St(), svc.env.defaultPool, book, user, dir, i, now)
      ensures forall i :: i in grants <==>
                && i in book.shares
                && book.shares[i].revokedAt.None?
                && (book.shares[i].expiresAt.Some? ==> now < book.shares[i].expiresAt.value)
                && book.shares[i].canDownload && book.shares[i].canUpload
                && (match book.shares[i].target
                    case ToUser(u) => u == user
                    case ToGroup(g) => (user, g) in book.members
                    case ToLink(_) => false)
                && (match book.shares[i].resource
                    case OnFile(_) => false
                    case OnDir(x) =>
                      || x == dir
                      || (x in svc.directories && svc.directories[x].deletedAt.None?
                          && IsAbove(svc.directories[x].key, svc.env.defaultPool, svc.directories[dir].key.owner,
                                     svc.directories[dir].key.parent)))
    {
      var k := svc.directories[dir].key;
      grants := ListUploadShares(user, dir, now);
      var visited := WalkAncestors(k.owner, k.parent);
      forall d
        ensures d in visited <==>
                  d in svc.directories && IsAbove(svc.directories[d].key, svc.env.defaultPool, k.owner, k.parent)
      {
        AncestorsExact(svc.files, svc.directories, svc.env.defaultPool, k.owner, k.parent, d);
      }
      var n := 0;
      while n < |visited|
        invariant 0 <= n <= |visited|
        invariant forall i :: i in grants <==> GrantAmong(svc.directories, book, user, dir, visited[..n], i, now)
      {
        GrantAmongNext(svc.directories, book, user, dir, visited, n, now);
        if svc.directories[visited[n]].deletedAt.None? {
          var more := ListUploadShares(user, visited[n], now);
          grants := grants + more;
        }
        n := n + 1;
      }
      assert visited[..n] == visited;
    }

    /** mostPermissiveUploadGrant: grants add up, none cuts another short. */
    method MostPermissive(grants: seq<string>) returns (best: string)
      requires grants != [] && forall i | i in grants :: i in book.shares
      ensures best in grants
      ensures book.shares[best].maxUploadSize.None? ||
              forall i | i in grants ::
                && book.shares[i].maxUploadSize.Some?
                && book.shares[i].maxUploadSize.value <= book.shares[best].maxUploadSize.value
    {
      best := grants[0];
      var n := 1;
      while n < |grants|
        invariant 1 <= n <= |grants| && best in grants
        invariant forall j | 0 <= j < n ::
                    AtLeast(book.shares[best].maxUploadSize, book.shares[grants[j]].maxUploadSize)
      {
        var b, g := book.shares[best].maxUploadSize, book.shares[grants[n]].maxUploadSize;
        if b.None? {
          return;
        }
        if g.None? || g.value > b.value {
          best := grants[n];
        }
        n := n + 1;
      }
    }

    /** Who may upload into a folder, and on what ground. */
    method Authorize(requester: string, dir: string, now: int) returns (l: Licence)
      requires UniqueKeys(svc.files, svc.directories)
      ensures Licensed(svc.St(), svc.env.defaultPool, book, enabled, requester, dir, now, l)
    {
      if !enabled {
        return Without(SharingOff);
      }
      if dir !in svc.directories || svc.directories[dir].deletedAt.Some? {
        return Without(NoSuchItem);
      }
      if svc.directories[dir].key.owner == requester {
        return Own;
      }
      var grants := UploadGrants(requester, dir, now);
      if grants != [] {
        var best := MostPermissive(grants);
        assert best in grants;
        return Under(best);
      }
      assert forall i :: i !in grants;
      var canRead := HasShareAccessToDirectory(requester, dir, now);
      l := Without(if canRead then UploadNotAllowed else NotAllowed);
    }

    /** UploadToSharedDirectory: a new file in a folder of someone else's, within the
        size the best grant allows; the file belongs to the folder's owner. */
    method UploadToSharedDirectory(requester: string, dir: string, name: string, src: Source, newId: string,
                                   stagingId: string, now: int)
      returns (r: Reply<string>, l: Licence)
      requires Agreement(svc.St()) && svc.clock <= now && newId !in svc.files
      requires forall i | i in book.shares && book.shares[i].maxUploadSize.Some? ::
                 book.shares[i].maxUploadSize.value < MAX_INT64
      modifies svc`files, svc`versions, svc`clock, svc.prov
      ensures Licensed(old(svc.St()), svc.env.defaultPool, book, enabled, requester, dir, now, l)
      ensures l == Without(NoSuchItem) <==>
                enabled && !(dir in old(svc.directories) && old(svc.directories)[dir].deletedAt.None?)
      ensures l.Without? ==> r == Denied(l.why) && svc.St() == old(svc.St())
      ensures !l.Without? ==>
                && Agreement(svc.St()) && dir in old(svc.directories) && (l.Under? ==> l.share in book.shares)
                && var limit := if l.Under? then book.shares[l.share].maxUploadSize else None;
                   var up := SharedUpload(old(svc.directories)[dir].key, name, Limited(src, limit));
                   var err := UploadError(svc.env, old(svc.St()), up);
                   && UploadStep(svc.env, old(svc.St()), up, newId, stagingId, now, svc.St(), err)
                   && r == if err.Some? then Denied(Rejected(err.value)) else Granted(newId)
    {
      l := Authorize(requester, dir, now);
      if l.Without? {
        return Denied(l.why), l;
      }
      var content := Receive(src, if l.Under? then book.shares[l.share].maxUploadSize else None);
      var up := SharedUpload(svc.directories[dir].key, name, content);
      SharedUploadPlace(svc.env, svc.St(), dir, up);
      ghost var s := svc.St();
      r := UploadNew(up, newId, stagingId, now);
      UploadStepKeeps(svc.env, s, up, newId, stagingId, now, svc.St(), UploadError(svc.env, s, up));
    }

    method UploadNew(up: UploadInput, newId: string, stagingId: string, now: int) returns (r: Reply<string>)
      requires Agreement(svc.St()) && svc.clock <= now && newId !in svc.files
      requires up.noOverwrite && !Reserved(UploadKey(svc.env, up))
      modifies svc`files, svc`versions, svc`clock, svc.prov
      ensures var err := UploadError(svc.env, old(svc.St()), up);
              && UploadStep(svc.env, old(svc.St()), up, newId, stagingId, now, svc.St(), err)
              && r == if err.Some? then Denied(Rejected(err.value)) else Granted(newId)
    {
      UnreservedIsFresh(UploadKey(svc.env, up), stagingId);
      NothingThere(svc.env, svc.St(), up);
      var id := svc.Upload(up, newId, stagingId, now);
      r := if id.Err? then Denied(Rejected(id.error)) else Granted(id.value);
    }

    // ----- public links

    /** ResolvePublicShareForAccess: only when links are on, and life cycle before password. */
    method ResolveLink(token: Digest, password: Option<Digest>, now: int) returns (r: Reply<string>)
      ensures !linksEnabled ==> r == Denied(LinksOff)
      ensures linksEnabled ==>
              match r
              case Granted(i) =>
                && i in book.shares && book.shares[i].target == ToLink(token)
                && var sh := book.shares[i];
                   && sh.revokedAt.None? && (sh.expiresAt.Some? ==> now <= sh.expiresAt.value)
                   && (sh.maxDownloads.Some? ==> sh.downloadCount < sh.maxDownloads.value)
                   && (sh.passwordHash.Some? ==> password == sh.passwordHash)
              case Denied(NoSuchShare) => forall i | i in book.shares :: book.shares[i].target != ToLink(token)
              case Denied(why) =>
                exists i | i in book.shares ::
                  book.shares[i].target == ToLink(token) && Refuses(book.shares[i], password, now, why)
    {
      if !linksEnabled {
        return Denied(LinksOff);
      }
      if i :| i in book.shares && book.shares[i].target == ToLink(token) {
        var sh := book.shares[i];
        var state := CheckLifecycle(sh, now);
        if state.Some? {
          return Denied(NotUsable(state.value));
        }
        if sh.passwordHash.Some? && password.None? {
          return Denied(PasswordRequired);
        }
        if sh.passwordHash.Some? && sh.passwordHash != password {
          return Denied(PasswordIncorrect);
        }
        r := Granted(i);
      } else {
        r := Denied(NoSuchShare);
      }
    }

    /** DownloadViaPublicShare from the share as it was read, which other requests may
        have used up since. The sub path arrives cut into its folder and its name. */
    method DownloadViaLink(i: string, seen: Share, subDir: string, name: string)
      returns (r: Reply<Bytes>, ghost f: string)
      requires Agreement(svc.St()) && i in book.shares
      modifies this`book
      ensures r.Granted? ==>
                && seen.canDownload && f in svc.files && Serves(svc.St(), svc.env.defaultPool, seen, subDir, name, f)
                && r.value == svc.files[f].sha.of
                && Countable(old(book).shares[i])
                && book == old(book).(shares := old(book).shares[i := Counted(old(book).shares[i])])
      ensures r.Denied? ==> book == old(book)
      ensures r.Denied? ==>
                r.why == if !seen.canDownload then DownloadNotAllowed
                         else
                           var item := SharedItem(svc.St(), svc.env.defaultPool, seen, subDir, name);
                           if item.Denied? then item.why else Spent
      ensures r == Denied(Spent) ==> !Countable(old(book).shares[i])
    {
      f := "";
      if !seen.canDownload {
        return Denied(DownloadNotAllowed), f;
      }
      var found := FindShared(seen, subDir, name);
      SharedItemServes(svc.St(), svc.env.defaultPool, seen, subDir, name);
      if found.Denied? {
        return Denied(found.why), f;
      }
      f := found.value;
      r := CountAndServe(i, found.value);
    }

    method CountAndServe(i: string, f: string) returns (r: Reply<Bytes>)
      requires RowsBacked(svc.files, svc.prov.tree) && f in svc.files && i in book.shares
      modifies this`book
      ensures r == if Countable(old(book).shares[i]) then Granted(svc.files[f].sha.of) else Denied(Spent)
      ensures book == old(book).(shares := old(book).shares[i := Counted(old(book).shares[i])])
      ensures r.Denied? ==> book == old(book)
    {
      var counted := IncrementDownloadCount(i);
      if !counted {
        assert old(book).shares[i := old(book).shares[i]] == old(book).shares;
        return Denied(Spent);
      }
      var content := ReadContent(f);
      r := Granted(content);
    }

    /** The conditional update, atomic in the database. */
    method IncrementDownloadCount(i: string) returns (ok: bool)
      requires i in book.shares
      modifies this`book
      ensures ok == Countable(old(book).shares[i])
      ensures book == old(book).(shares := old(book).shares[i := Counted(old(book).shares[i])])
    {
      var sh := book.shares[i];
      ok := sh.maxDownloads.None? || sh.downloadCount < sh.maxDownloads.value;
      if ok {
        book := book.(shares := book.shares[i := sh.(downloadCount := sh.downloadCount + 1)]);
      } else {
        assert book.shares[i := sh] == book.shares;
      }
    }

    method ReadContent(f: string) returns (content: Bytes)
      requires RowsBacked(svc.files, svc.prov.tree) && f in svc.files
      ensures content == svc.files[f].sha.of
    {
      assert RowBacked(svc.prov.tree, svc.files[f]);
      content := svc.prov.tree.content[At(svc.files[f].key)];
    }

    /** The file a share offers under a sub path. */
    method FindShared(seen: Share, subDir: string, name: string) returns (r: Reply<string>)
      requires Agreement(svc.St())
      ensures r == SharedItem(svc.St(), svc.env.defaultPool, seen, subDir, name)
    {
      match seen.resource {
        case OnFile(id) =>
          r := if id in svc.files then Granted(id) else Denied(NoSuchItem);
        case OnDir(d) =>
          if d !in svc.directories {
            return Denied(NoSuchItem);
          }
          var k := svc.directories[d].key;
          SharedFolderPath(svc.St(), d, subDir);
          var target := ResolveSharedPath(Render(k.parent), k.name, subDir);
          if target.None? || name == "." || name == "/" {
            return Denied(BadPath);
          }
          var at := svc.FindFileRow(Key(svc.env.defaultPool, k.owner, CleanSegments(target.value), name));
          r := if at.Some? then Granted(at.value) else Denied(NoSuchItem);
      }
    }
  }

  datatype Licence = Own | Under(share: string) | Without(why: LinkError)

  /** The ground an upload into a folder rests on: the owner needs none; anyone else
      needs a grant, and gets the one that allows most. */
  ghost predicate Licensed(s: State, pool: string, b: Book, enabled: bool, user: string, dir: string, now: int,
                           l: Licence) {
    if !enabled then l == Without(SharingOff)
    else if !(dir in s.dirs && s.dirs[dir].deletedAt.None?) then l == Without(NoSuchItem)
    else
      var k := s.dirs[dir].key;
      match l
      case Own => k.owner == user
      case Under(i) =>
        && k.owner != user && Grant(s, pool, b, user, dir, i, now)
        && forall j | Grant(s, pool, b, user, dir, j, now) ::
             AtLeast(b.shares[i].maxUploadSize, b.shares[j].maxUploadSize)
      case Without(why) =>
        && k.owner != user && (forall j :: !Grant(s, pool, b, user, dir, j, now))
        && why == if HasAccess(b, user, OnDir(dir), now)
                     || ReadsFromAbove(s.dirs, pool, b, user, k.owner, k.parent, now)
                  then UploadNotAllowed else NotAllowed
  }

  /** The upload into a shared folder: under its owner, in the default pool, and never
      over an existing file. */
  function SharedUpload(k: Key, name: string, content: Source): UploadInput {
    UploadInput(k.owner, Render(k.Full()), name, content, "", true)
  }

  lemma SharedUploadPlace(env: Env, s: State, dir: string, up: UploadInput)
    requires UserPaths(s.files, s.dirs) && dir in s.dirs
    requires up == SharedUpload(s.dirs[dir].key, up.name, up.source)
    ensures UploadKey(env, up) == Key(env.defaultPool, s.dirs[dir].key.owner, s.dirs[dir].key.Full(), up.name)
    ensures !Reserved(UploadKey(env, up)) && up.noOverwrite
  {
    RenderReadsBack(s.dirs[dir].key.Full());
  }

  /** A shared upload only adds: every file there before keeps its row, its history and
      its content, and the new one is no larger than the grant allows. */
  lemma SharedUploadOnlyAdds(env: Env, s: State, k: Key, name: string, src: Source, limit: Option<nat>,
                             newId: string, stagingId: string,
                             now: int, s': State)
    requires RowsBacked(s.files, s.tree) && newId !in s.files
    requires UploadStep(env, s, SharedUpload(k, name, Limited(src, limit)), newId, stagingId, now, s', None)
    ensures newId in s'.files && s'.files == s.files[newId := s'.files[newId]] && s'.versions == s.versions
    ensures src.Complete? && s'.files[newId].sha == Sha256(src.data) && AtLeast(limit, Some(|src.data|))
    ensures forall p | p in s.tree.content && p != At(s'.files[newId].key) ::
              p in s'.tree.content && s'.tree.content[p] == s.tree.content[p]
    ensures forall j | j in s.files :: At(s.files[j].key) != At(s'.files[newId].key)
  {
    var up := SharedUpload(k, name, Limited(src, limit));
    assert FindFile(s.files, UploadKey(env, up)).None?;
    forall j | j in s.files ensures At(s.files[j].key) != At(s'.files[newId].key) {
      assert KeyAt(At(s.files[j].key)) == s.files[j].key;
    }
  }

  lemma NothingThere(env: Env, s: State, up: UploadInput)
    requires up.noOverwrite
    ensures UploadError(env, s, up).None? ==> FindFile(s.files, UploadKey(env, up)).None?
  {}

  /** Why a link cannot be used; revoked before expired before used up, and all of that
      before the password is looked at. */
  predicate Refuses(sh: Share, password: Option<Digest>, now: int, why: LinkError) {
    if sh.revokedAt.Some? then why == NotUsable(Revoked)
    else if sh.expiresAt.Some? && sh.expiresAt.value < now then why == NotUsable(Expired)
    else if sh.maxDownloads.Some? && sh.maxDownloads.value <= sh.downloadCount then why == NotUsable(Exhausted)
    else if sh.passwordHash.None? then false
    else if password.None? then why == PasswordRequired
    else password != sh.passwordHash && why == PasswordIncorrect
  }

  /** File f is what the share offers under this sub path: the shared file, or a file
      whose folder lies at or below the shared one. Trashed files are served too. */
  ghost predicate Serves(s: State, pool: string, sh: Share, subDir: string, name: string, f: string)
    requires f in s.files
  {
    match sh.resource
    case OnFile(id) => f == id
    case OnDir(d) =>
      && d in s.dirs
      && s.files[f].key == Key(pool, s.dirs[d].key.owner, Walk(s.dirs[d].key.Full(), Split(subDir)), name)
      && s.dirs[d].key.Full() <= s.files[f].key.parent
  }

  /** What is found under a share: a path out of the shared folder is refused before any
      row is looked up. */
  ghost function SharedItem(s: State, pool: string, sh: Share, subDir: string, name: string): Reply<string> {
    match sh.resource
    case OnFile(id) => if id in s.files then Granted(id) else Denied(NoSuchItem)
    case OnDir(d) =>
      if d !in s.dirs then Denied(NoSuchItem)
      else
        var k := s.dirs[d].key;
        var target := Walk(k.Full(), Split(subDir));
        if !(k.Full() <= target) || name == "." || name == "/" then Denied(BadPath)
        else match FindFile(s.files, Key(pool, k.owner, target, name))
             case None => Denied(NoSuchItem)
             case Some(f) => Granted(f)
  }

  lemma SharedItemServes(s: State, pool: string, sh: Share, subDir: string, name: string)
    ensures var r := SharedItem(s, pool, sh, subDir, name);
            && (r.Granted? ==> r.value in s.files && Serves(s, pool, sh, subDir, name, r.value))
            && (r.Denied? ==> r.why == if Escapes(s, sh, subDir, name) then BadPath else NoSuchItem)
            && (r.Denied? ==> Escapes(s, sh, subDir, name)
                              || forall f | f in s.files :: !Serves(s, pool, sh, subDir, name, f))
  {}

  /** The sub path leads out of the shared folder, or to no name. */
  predicate Escapes(s: State, sh: Share, subDir: string, name: string) {
    && sh.resource.OnDir? && sh.resource.dir in s.dirs
    && (name == "." || name == "/"
        || !(s.dirs[sh.resource.dir].key.Full() <= Walk(s.dirs[sh.resource.dir].key.Full(), Split(subDir))))
  }

  /** Every file at or below the shared folder, in the pool links are looked up in, is found under
      its path from there. */
  lemma FileBelowIsFound(s: State, pool: string, sh: Share, d: string, rest: Path, f: string)
    requires UniqueKeys(s.files, s.dirs) && sh.resource == OnDir(d) && d in s.dirs && f in s.files && Canonical(rest)
    requires var k, x := s.dirs[d].key, s.files[f].key;
             x.pool == pool && x.owner == k.owner && x.parent == k.Full() + rest && x.name != "." && x.name != "/"
    ensures SharedItem(s, pool, sh, Render(rest), s.files[f].key.name) == Granted(f)
  {
    WalkRender(s.dirs[d].key.Full(), rest);
    assert s.dirs[d].key.Full() <= s.dirs[d].key.Full() + rest;
  }

  lemma SharedFolderPath(s: State, d: string, subDir: string)
    requires UserPaths(s.files, s.dirs) && d in s.dirs
    ensures var k := s.dirs[d].key;
            var target := Walk(k.Full(), Split(subDir));
            && ResolveSharedPath(Render(k.parent), k.name, subDir)
               == (if k.Full() <= target then Some(Render(target)) else None)
            && CleanSegments(Render(target)) == target
  {
    var k := s.dirs[d].key;
    assert k.name in k.Full();
    forall x | x in k.parent ensures ValidSegment(x) {
      assert x in k.Full();
    }
    SharedPathStaysInside(k.parent, k.name, subDir);
    RenderReadsBack(Walk(k.Full(), Split(subDir)));
  }
}
