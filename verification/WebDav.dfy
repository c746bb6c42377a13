/** The WebDAV view of one user's files (internal/webdav/filesystem.go): lookups by
    path, recursive delete, and moves that may replace a file, as programs over
    FileService, with the trash switched on. Each request happens at one time. */
module WebDav {
  import opened Base
  import opened PathStrings
  import opened PhysicalTree
  import opened StorageModel
  import opened Uploads
  import opened Moves
  import opened Trash
  import opened Operations
  import opened Effects
  import opened Progress
  import opened Backing
  import opened ServiceLemmas
  import opened Service
  import opened VersionHistory
  import opened Sweep

  datatype Entry = Root | Folder(id: string) | File(id: string)

  datatype DavError = NotExist | Exist | Permission | Invalid | OverwriteCollection | Failed(error: Error)

  datatype Answer = Done | Refused(reason: DavError)

  function MapError(e: Error): DavError {
    match e
    case FileNotFound => NotExist
    case DirectoryNotFound => NotExist
    case Forbidden => Permission
    case NameOccupiedByTrash => Exist
    case DestinationOccupied => Exist
    case InvalidName => Invalid
    case InvalidMoveDestination => Invalid
    case _ => Failed(e)
  }

  /** Which answers a client can tell apart. */
  lemma ErrorsByKind(e: Error)
    ensures MapError(e) == NotExist <==> e in {FileNotFound, DirectoryNotFound}
    ensures MapError(e) == Permission <==> e == Forbidden
    ensures MapError(e) == Exist <==> e in {NameOccupiedByTrash, DestinationOccupied}
    ensures MapError(e) == Invalid <==> e in {InvalidName, InvalidMoveDestination}
  {}

  predicate IsActiveDir(s: State, id: string, owner: string, path: Path) {
    id in s.dirs && s.dirs[id].key.owner == owner && s.dirs[id].key.Full() == path && s.dirs[id].deletedAt.None?
  }

  predicate IsActiveFile(s: State, id: string, owner: string, path: Path) {
    id in s.files && s.files[id].key.owner == owner && s.files[id].key.Full() == path && s.files[id].deletedAt.None?
  }

  /** What stands at a path: a folder before a file, only active items. */
  ghost predicate StandsAt(s: State, owner: string, path: Path, e: Option<Entry>) {
    match e
    case Some(Root) => path == []
    case Some(Folder(d)) => IsActiveDir(s, d, owner, path)
    case Some(File(f)) => IsActiveFile(s, f, owner, path) && forall d | d in s.dirs :: !IsActiveDir(s, d, owner, path)
    case None =>
      && path != []
      && (forall d | d in s.dirs :: !IsActiveDir(s, d, owner, path))
      && (forall f | f in s.files :: !IsActiveFile(s, f, owner, path))
  }

  function AnswerOf(err: Option<Error>): Answer {
    if err.Some? then Refused(MapError(err.value)) else Done
  }

  function AnswerTo<T>(r: Outcome<T>): Answer {
    AnswerOf(if r.Err? then Some(r.error) else None)
  }

  ghost predicate ParentIsFolder(s: State, owner: string, path: Path)
    requires path != []
  {
    Parent(path) == [] || exists d | d in s.dirs :: IsActiveDir(s, d, owner, Parent(path))
  }

  /** The upload that puts a content at a path. */
  function UploadAt(owner: string, path: Path, data: Bytes): UploadInput
    requires path != []
  {
    UploadInput(owner, Render(Parent(path)), path[|path| - 1], Complete(data), "", false)
  }

  /** moveOverFile: the content of file src is uploaded at path, then src is deleted. */
  ghost predicate MovesOver(env: Env, s: State, owner: string, src: string, path: Path, newId: string,
                            stagingId: string,
                            now: int, s': State, a: Answer)
    requires path != [] && src in s.files
  {
    var up := UploadAt(owner, path, s.files[src].sha.of);
    var err := UploadError(env, s, up);
    && a == AnswerOf(err)
    && if err.Some? then Rejected(s, s')
       else
         var s1 := Uploaded(env, s, up, newId, stagingId, now);
         src in s1.files && s' == FileDeleted(env, s1, src, now)
  }

  /** What Rename does, agreed saying whether this request may replace path q. */
  ghost predicate RenameStep(env: Env, s: State, owner: string, agreed: bool, p: Path, q: Path, src: Option<Entry>,
                          newId: string, stagingId: string, now: int, s': State, a: Answer)
  {
    if p == [] || q == [] then a == Refused(Permission) && s' == s
    else if p == q then a == Done && s' == s
    else if src.None? || !ParentIsFolder(s, owner, q) then a == Refused(NotExist) && s' == s
    else if agreed then Replaces(env, s, owner, src.value, q, newId, stagingId, now, s', a)
    else MovesPlainly(s, owner, src.value, q, s', a)
  }

  /** A file may take the place of a file, a folder may not. */
  ghost predicate Replaces(env: Env, s: State, owner: string, e: Entry, q: Path, newId: string, stagingId: string,
                           now: int, s': State, a: Answer)
    requires q != []
  {
    match e
    case Root => false
    case File(f) => f in s.files && MovesOver(env, s, owner, f, q, newId, stagingId, now, s', a)
    case Folder(d) => a == Refused(Exist) && s' == s
  }

  class FileSystem {
    const svc: FileService
    const owner: string
    /** The destination this request has agreed to replace, for one use. */
    var overwriteOf: Option<Path>

    constructor (svc: FileService, owner: string)
      ensures this.svc == svc && this.owner == owner && overwriteOf == None
    {
      this.svc, this.owner, overwriteOf := svc, owner, None;
    }

    /** lookup: lists the parent folder, folders first. */
    method Lookup(path: Path) returns (e: Option<Entry>)
      ensures StandsAt(svc.St(), owner, path, e)
    {
      if path == [] {
        return Some(Root);
      }
      var dirIds, fileIds := svc.List(owner, Parent(path));
      if d :| d in dirIds && svc.directories[d].key.name == path[|path| - 1] {
        e := Some(Folder(d));
      } else if f :| f in fileIds && svc.files[f].key.name == path[|path| - 1] {
        e := Some(File(f));
        FullAt(path);
      } else {
        e := None;
        FullAt(path);
      }
    }

    /** requireParentDir. */
    method RequireParentDir(path: Path) returns (ok: bool)
      requires path != []
      ensures ok == ParentIsFolder(svc.St(), owner, path)
    {
      if Parent(path) == [] {
        return true;
      }
      var e := Lookup(Parent(path));
      ok := e.Some? && e.value.Folder?;
    }

    // ----- recursive delete

    /** deleteFile. */
    method RemoveFile(id: string, now: int) returns (r: Outcome<()>)
      requires svc.env.trashEnabled && FoldersReady(svc.St())
      requires id in svc.files && svc.files[id].key.owner == owner
      modifies svc`files, svc`versions, svc`clock, svc.prov
      ensures r.Ok? && FoldersReady(svc.St())
      ensures Trashes(old(svc.St()), svc.St(), {id}, {}, now)
    {
      FileTrashed(svc.env, svc.St(), id, now);
      r := svc.Delete(owner, id, now);
    }

    method RemoveFiles(ids: seq<string>, now: int) returns (r: Outcome<()>)
      requires svc.env.trashEnabled && FoldersReady(svc.St())
      requires forall f | f in ids :: f in svc.files && svc.files[f].key.owner == owner
      modifies svc`files, svc`versions, svc`clock, svc.prov
      ensures r.Ok? && FoldersReady(svc.St())
      ensures Trashes(old(svc.St()), svc.St(), Members(ids), {}, now)
    {
      ghost var s := svc.St();
      NothingTrashed(s, now);
      r := Ok(());
      var i := 0;
      while i < |ids| && r.Ok?
        invariant 0 <= i <= |ids| && r.Ok? && FoldersReady(svc.St())
        invariant Trashes(s, svc.St(), Members(ids[..i]), {}, now)
      {
        ghost var s1 := svc.St();
        r := RemoveFile(ids[i], now);
        TrashesOneMore(s, s1, svc.St(), ids, i, now);
        i := i + 1;
      }
      assert ids[..|ids|] == ids;
    }

    /** removeTree: the files of a folder, its subfolders one after the other, then
        the folder. Nothing stops it, and every folder it takes is left empty. */
    method RemoveTree(path: Path, root: string, now: int)
      returns (r: Outcome<()>, ghost fs: set<string>, ghost ds: set<string>)
      requires svc.env.trashEnabled && FoldersReady(svc.St())
      requires IsActiveDir(svc.St(), root, owner, path)
      modifies svc`files, svc`directories, svc`versions, svc`clock, svc.prov
      ensures r.Ok? && FoldersReady(svc.St())
      ensures Trashes(old(svc.St()), svc.St(), fs, ds, now) && Emptied(svc.St(), owner, ds)
      ensures root in ds
      ensures fs <= FilesUnder(old(svc.files), owner, path)
      ensures ds <= DirsUnder(old(svc.directories), owner, path) + {root}
      decreases |DirsUnder(svc.directories, owner, path)|, 2
    {
      ghost var s := svc.St();
      RootStays(s, owner, path, root);
      r, fs, ds := RemoveContents(path, now);
      ghost var s2 := svc.St();
      if r.Ok? {
        r := RemoveFolder(path, root, now);
      }
      SweptRoot(s, s2, svc.St(), owner, root, fs, ds, now);
      ds := ds + {root};
    }

    /** The files of a folder, then its subfolders. */
    method RemoveContents(path: Path, now: int) returns (r: Outcome<()>, ghost fs: set<string>, ghost ds: set<string>)
      requires svc.env.trashEnabled && FoldersReady(svc.St())
      modifies svc`files, svc`directories, svc`versions, svc`clock, svc.prov
      ensures r.Ok? && FoldersReady(svc.St())
      ensures Trashes(old(svc.St()), svc.St(), fs, ds, now) && Emptied(svc.St(), owner, ds)
      ensures !HasActiveItems(svc.St(), owner, path)
      ensures fs <= FilesUnder(old(svc.files), owner, path)
      ensures ds <= DirsUnder(old(svc.directories), owner, path)
      decreases |DirsUnder(svc.directories, owner, path)|, 1
    {
      ghost var s := svc.St();
      var dirIds, fileIds := svc.List(owner, path);
      r := RemoveFiles(fileIds, now);
      ghost var s1 := svc.St();
      FoldersUnmarked(s, s1, Members(fileIds), now);
      fs, ds := {}, {};
      if r.Ok? {
        r, fs, ds := RemoveSubtrees(path, dirIds, now);
      }
      SweptBelow(s, s1, svc.St(), owner, path, fileIds, dirIds, fs, ds, now);
      fs := Members(fileIds) + fs;
    }

    method RemoveFolder(ghost path: Path, id: string, now: int) returns (r: Outcome<()>)
      requires svc.env.trashEnabled && FoldersReady(svc.St())
      requires IsActiveDir(svc.St(), id, owner, path) && !HasActiveItems(svc.St(), owner, path)
      modifies svc`directories, svc`clock, svc.prov
      ensures r.Ok? && FoldersReady(svc.St())
      ensures Trashes(old(svc.St()), svc.St(), {}, {id}, now)
    {
      FolderGoes(svc.env, svc.St(), owner, id);
      FolderTrashed(svc.env, svc.St(), id, now);
      r := svc.DeleteDirectory(owner, id, now);
    }

    /** The subfolders, one after the other. */
    method RemoveSubtrees(path: Path, ids: seq<string>, now: int)
      returns (r: Outcome<()>, ghost fs: set<string>, ghost ds: set<string>)
      requires svc.env.trashEnabled && FoldersReady(svc.St()) && Distinct(ids)
      requires forall d | d in ids :: d in svc.directories && ActiveDirIn(svc.directories[d], owner, path)
      modifies svc`files, svc`directories, svc`versions, svc`clock, svc.prov
      ensures r.Ok? && FoldersReady(svc.St())
      ensures Trashes(old(svc.St()), svc.St(), fs, ds, now) && Emptied(svc.St(), owner, ds)
      ensures forall d | d in ids :: d in ds
      ensures fs <= FilesUnder(old(svc.files), owner, path)
      ensures ds <= DirsUnder(old(svc.directories), owner, path)
      decreases |DirsUnder(svc.directories, owner, path)|, 0
    {
      ghost var s := svc.St();
      NothingTrashed(s, now);
      r, fs, ds := Ok(()), {}, {};
      var i := 0;
      while i < |ids| && r.Ok?
        invariant 0 <= i <= |ids| && r.Ok? && FoldersReady(svc.St())
        invariant Trashes(s, svc.St(), fs, ds, now) && Emptied(svc.St(), owner, ds)
        invariant forall j | 0 <= j < i :: ids[j] in ds
        invariant forall d | d in ds :: d in ids ==> d in ids[..i]
        invariant fs <= FilesUnder(s.files, owner, path) && ds <= DirsUnder(s.dirs, owner, path)
      {
        ghost var s1 := svc.St();
        var child := svc.directories[ids[i]].key.Full();
        FewerBelow(s, s1, owner, path, fs, ds, now, ids[i]);
        ghost var f2, d2;
        r, f2, d2 := RemoveTree(child, ids[i], now);
        SweptChild(s, s1, svc.St(), owner, path, ids, i, fs, ds, f2, d2, now);
        fs, ds := fs + f2, ds + d2;
        i := i + 1;
      }
    }

    /** RemoveAll: as the first half of a MOVE or COPY it removes nothing, and only
        an existing file may be replaced; as a DELETE it sends the item and all
        below it to the trash. */
    method RemoveAll(name: string, overwriting: bool, now: int) returns (a: Answer, ghost e: Option<Entry>)
      requires svc.env.trashEnabled && Agreement(svc.St()) && svc.clock <= now
      modifies this`overwriteOf, svc`files, svc`directories, svc`versions, svc`clock, svc.prov
      ensures Agreement(svc.St())
      ensures var path, s := CleanSegments(name), old(svc.St());
              if path == [] then a == Refused(Permission) && svc.St() == s && overwriteOf == old(overwriteOf)
              else if overwriting then
                && svc.St() == s && (a == Done || a == Refused(OverwriteCollection))
                && (a == Done <==> forall d | d in s.dirs :: !IsActiveDir(s, d, owner, path))
                && overwriteOf == (if a == Done && exists f | f in s.files :: IsActiveFile(s, f, owner, path)
                                   then Some(path) else old(overwriteOf))
              else
                && a == Done && StandsAt(s, owner, path, e) && Removed(s, svc.St(), owner, path, e, now)
                && overwriteOf == old(overwriteOf)
    {
      var path := CleanSegments(name);
      e := None;
      if path == [] {
        a := Refused(Permission);
      } else if overwriting {
        a := BeginOverwrite(path);
      } else {
        a, e := Remove(path, now);
      }
    }

    /** beginOverwrite. */
    method BeginOverwrite(path: Path) returns (a: Answer)
      requires path != []
      modifies this`overwriteOf
      ensures var s := svc.St();
              && (a == Done <==> forall d | d in s.dirs :: !IsActiveDir(s, d, owner, path))
              && (a != Done ==> a == Refused(OverwriteCollection) && overwriteOf == old(overwriteOf))
              && overwriteOf == (if a == Done && exists f | f in s.files :: IsActiveFile(s, f, owner, path)
                                 then Some(path) else old(overwriteOf))
    {
      var e := Lookup(path);
      if e.None? {
        return Done;
      }
      if !e.value.File? {
        return Refused(OverwriteCollection);
      }
      overwriteOf := Some(path);
      a := Done;
    }

    method Remove(path: Path, now: int) returns (a: Answer, ghost found: Option<Entry>)
      requires svc.env.trashEnabled && Agreement(svc.St()) && svc.clock <= now && path != []
      modifies svc`files, svc`directories, svc`versions, svc`clock, svc.prov
      ensures a == Done && Agreement(svc.St())
      ensures StandsAt(old(svc.St()), owner, path, found)
      ensures Removed(old(svc.St()), svc.St(), owner, path, found, now)
    {
      var e := Lookup(path);
      found := e;
      if e.None? {
        a := Done;
        return;
      }
      ghost var s := svc.St();
      ghost var fs, ds;
      a, fs, ds := RemoveEntry(path, e.value, now);
      SweepKeeps(s, svc.St(), fs, ds, now);
    }

    method RemoveEntry(path: Path, e: Entry, now: int) returns (a: Answer, ghost fs: set<string>, ghost ds: set<string>)
      requires svc.env.trashEnabled && FoldersReady(svc.St()) && path != []
      requires StandsAt(svc.St(), owner, path, Some(e))
      modifies svc`files, svc`directories, svc`versions, svc`clock, svc.prov
      ensures a == Done && FoldersReady(svc.St()) && Trashes(old(svc.St()), svc.St(), fs, ds, now)
      ensures Removed(old(svc.St()), svc.St(), owner, path, Some(e), now)
    {
      ghost var s := svc.St();
      var r: Outcome<()>;
      if e.File? {
        r := RemoveFile(e.id, now);
        fs, ds := {e.id}, {};
      } else {
        r, fs, ds := RemoveTree(path, e.id, now);
        SweptWhole(s, svc.St(), owner, path, e.id, fs, ds, now);
      }
      a := AnswerTo(r);
    }

    // ----- moves

    /** Rename: a plain move never replaces anything; a move this request has agreed
        to lay over a file replaces that file's content, once. */
    method Rename(oldName: string, newName: string, newId: string, stagingId: string, now: int)
      returns (a: Answer, ghost src: Option<Entry>)
      requires Agreement(svc.St())
      requires var q := CleanSegments(newName);
               overwriteOf == Some(q) && q != [] ==> MayReplace(svc.env, svc.St(), owner, q, newId, stagingId, now)
      modifies this`overwriteOf, svc, svc.prov
      ensures var p, q := CleanSegments(oldName), CleanSegments(newName);
              p != [] && q != [] && p != q ==> StandsAt(old(svc.St()), owner, p, src)
      ensures RenameStep(svc.env, old(svc.St()), owner, old(overwriteOf) == Some(CleanSegments(newName)),
                      CleanSegments(oldName), CleanSegments(newName), src, newId, stagingId, now, svc.St(), a)
      ensures var p, q := CleanSegments(oldName), CleanSegments(newName);
              a == Done && p != q && old(overwriteOf) != Some(q) ==>
                src.Some? && StandsNow(old(svc.St()), svc.St(), owner, src.value, q)
      ensures var p, q := CleanSegments(oldName), CleanSegments(newName);
              overwriteOf == if && old(overwriteOf) == Some(q) && p != [] && q != [] && p != q
                                && src.Some? && ParentIsFolder(old(svc.St()), owner, q)
                             then None else old(overwriteOf)
    {
      var p, q := CleanSegments(oldName), CleanSegments(newName);
      src := None;
      if p == [] || q == [] {
        a := Refused(Permission);
        return;
      }
      if p == q {
        a := Done;
        return;
      }
      var e := Lookup(p);
      src := e;
      if e.None? {
        a := Refused(NotExist);
        return;
      }
      var parentOk := RequireParentDir(q);
      if !parentOk {
        a := Refused(NotExist);
        return;
      }
      CleanIsCanonical(newName);
      ghost var s := svc.St();
      a := MoveEntry(e.value, q, newId, stagingId, now);
      if a == Done && old(overwriteOf) != Some(q) {
        PlainMoveArrives(s, owner, e.value, q, svc.St());
      }
    }

    method MoveEntry(e: Entry, q: Path, newId: string, stagingId: string, now: int) returns (a: Answer)
      requires Agreement(svc.St()) && Canonical(q) && q != [] && !e.Root?
      requires overwriteOf == Some(q) ==> MayReplace(svc.env, svc.St(), owner, q, newId, stagingId, now)
      requires e.File? ==> e.id in svc.files && svc.files[e.id].key.owner == owner && svc.files[e.id].key.Full() != q
      modifies this`overwriteOf, svc, svc.prov
      ensures old(overwriteOf) == Some(q) ==>
                overwriteOf == None && Replaces(svc.env, old(svc.St()), owner, e, q, newId, stagingId, now, svc.St(), a)
      ensures old(overwriteOf) != Some(q) ==>
                overwriteOf == old(overwriteOf) && MovesPlainly(old(svc.St()), owner, e, q, svc.St(), a)
    {
      if overwriteOf == Some(q) {
        overwriteOf := None;
        a := MoveOver(e, q, newId, stagingId, now);
      } else {
        a := MovePlain(e, q);
      }
    }

    method MovePlain(e: Entry, q: Path) returns (a: Answer)
      requires Agreement(svc.St()) && q != [] && !e.Root?
      modifies svc`files, svc`directories, svc.prov
      ensures MovesPlainly(old(svc.St()), owner, e, q, svc.St(), a)
    {
      var parent, name := Some(Render(Parent(q))), Some(q[|q| - 1]);
      var r: Outcome<()>;
      match e {
        case File(f) =>
          r := svc.MoveFile(owner, f, parent, name);
        case Folder(d) =>
          r := svc.MoveDirectory(owner, d, parent, name);
      }
      a := AnswerTo(r);
    }

    method MoveOver(e: Entry, q: Path, newId: string, stagingId: string, now: int) returns (a: Answer)
      requires Agreement(svc.St()) && Canonical(q) && q != []
      requires MayReplace(svc.env, svc.St(), owner, q, newId, stagingId, now)
      requires !e.Root?
      requires e.File? ==> e.id in svc.files && svc.files[e.id].key.owner == owner && svc.files[e.id].key.Full() != q
      modifies svc`files, svc`versions, svc`clock, svc.prov
      ensures Replaces(svc.env, old(svc.St()), owner, e, q, newId, stagingId, now, svc.St(), a)
    {
      if e.File? {
        a := MoveOverFile(e.id, q, newId, stagingId, now);
      } else {
        a := Refused(Exist);
      }
    }

    /** moveOverFile: uploads before it deletes, so that both contents are on disk
        at every moment. */
    method MoveOverFile(src: string, q: Path, newId: string, stagingId: string, now: int) returns (a: Answer)
      requires Agreement(svc.St()) && Canonical(q) && q != []
      requires MayReplace(svc.env, svc.St(), owner, q, newId, stagingId, now)
      requires src in svc.files && svc.files[src].key.owner == owner && svc.files[src].key.Full() != q
      modifies svc`files, svc`versions, svc`clock, svc.prov
      ensures MovesOver(svc.env, old(svc.St()), owner, src, q, newId, stagingId, now, svc.St(), a)
      ensures AlwaysHeld(old(svc.files)[src].sha.of, old(svc.prov.trace), svc.prov.trace)
      ensures a == Done ==> forall dst | OldContentKept(svc.env, old(svc.St()), owner, src, q, now, dst) ::
                AlwaysHeld(old(svc.files)[dst].sha.of, old(svc.prov.trace), svc.prov.trace)
    {
      ghost var s := svc.St();
      var got := svc.DownloadOwn(owner, src);
      UploadAtKey(svc.env, s, owner, q, s.files[src].sha.of);
      var up := UploadAt(owner, q, if got.Ok? then got.value else []);
      var r := svc.Upload(up, newId, stagingId, now);
      if r.Err? {
        return AnswerTo(r);
      }
      SourceStays(svc.env, s, up, newId, stagingId, now, src);
      var d := svc.Delete(owner, src, now);
      a := AnswerTo(d);
    }
  }

  /** What an agreed overwrite needs: the trash, new ids, and a clock that has not gone back. */
  ghost predicate MayReplace(env: Env, s: State, owner: string, q: Path, newId: string, stagingId: string, now: int)
    requires q != []
  {
    && env.trashEnabled && s.clock <= now && newId !in s.files
    && FreshStaging(Key(env.defaultPool, owner, Parent(q), q[|q| - 1]), stagingId)
  }

  predicate OutsideReserved(q: Path)
    requires q != []
  {
    q[0] != STAGING && q[0] != VERSIONS
  }

  ghost predicate MovesPlainly(s: State, owner: string, e: Entry, q: Path, s': State, a: Answer)
    requires q != []
  {
    var parent, name := Some(Render(Parent(q))), Some(q[|q| - 1]);
    match e
    case Root => false
    case File(f) =>
      var err := MoveFileError(s, owner, f, parent, name);
      a == AnswerOf(err) && MoveFileStep(s, owner, f, parent, name, s', err)
    case Folder(d) =>
      var err := MoveDirectoryError(s, owner, d, parent, name);
      a == AnswerOf(err) && MoveDirectoryStep(s, owner, d, parent, name, s', err)
  }

  /** The item stands at q now, under the same owner, with what it holds; a folder has taken along
      everything below it. */
  ghost predicate StandsNow(s: State, s': State, owner: string, e: Entry, q: Path) {
    match e
    case Root => false
    case File(f) =>
      && f in s.files && f in s'.files && s'.files[f] == s.files[f].(key := s'.files[f].key)
      && SameRoot(s.files[f].key, s'.files[f].key) && IsActiveFile(s', f, owner, q)
      && CarriedAlong(s.tree, s'.tree, At(s.files[f].key), At(s'.files[f].key), s.files[f].sha.of)
    case Folder(d) =>
      && d in s.dirs && d in s'.dirs && SameRoot(s.dirs[d].key, s'.dirs[d].key) && IsActiveDir(s', d, owner, q)
      && TableFollows(s, s', s.dirs[d].key, s'.dirs[d].key) && At(s'.dirs[d].key) in s'.tree.dirs
      && (s'.dirs[d].key != s.dirs[d].key ==> At(s.dirs[d].key) !in s'.tree.dirs)
  }

  /** A plain move that is done. */
  lemma PlainMoveArrives(s: State, owner: string, e: Entry, q: Path, s': State)
    requires Agreement(s) && Canonical(q) && q != [] && MovesPlainly(s, owner, e, q, s', Done)
    ensures StandsNow(s, s', owner, e, q)
  {
    match e {
      case File(f) => FileMoveArrives(s, owner, f, q, s');
      case Folder(d) => FolderMoveArrives(s, owner, d, q, s');
    }
  }

  lemma FileMoveArrives(s: State, owner: string, f: string, q: Path, s': State)
    requires RowsBacked(s.files, s.tree) && Canonical(q) && q != []
    requires MoveFileStep(s, owner, f, Some(Render(Parent(q))), Some(q[|q| - 1]), s', None)
    ensures StandsNow(s, s', owner, File(f), q)
  {
    RenderReadsBack(Parent(q));
    assert Parent(q) + [q[|q| - 1]] == q;
    FileArrives(s, owner, f, Some(Render(Parent(q))), Some(q[|q| - 1]), s');
  }

  lemma FolderMoveArrives(s: State, owner: string, d: string, q: Path, s': State)
    requires Agreement(s) && Canonical(q) && q != []
    requires MoveDirectoryStep(s, owner, d, Some(Render(Parent(q))), Some(q[|q| - 1]), s', None)
    ensures StandsNow(s, s', owner, Folder(d), q)
  {
    RenderReadsBack(Parent(q));
    FolderArrives(s, owner, d, Some(Render(Parent(q))), Some(q[|q| - 1]), s');
    FolderStands(s, owner, d, q, s');
  }

  lemma FolderStands(s: State, owner: string, d: string, q: Path, s': State)
    requires q != [] && d in s.dirs && s.dirs[d].key.owner == owner && s.dirs[d].deletedAt.None? && d in s'.dirs
    requires var k, k' := s.dirs[d].key, s'.dirs[d].key;
             && SameRoot(k, k') && k'.parent == Parent(q) && k'.name == q[|q| - 1] && TableFollows(s, s', k, k')
             && At(k') in s'.tree.dirs && (k' != k ==> At(k) !in s'.tree.dirs)
    ensures StandsNow(s, s', owner, Folder(d), q)
  {
    assert Parent(q) + [q[|q| - 1]] == q;
    assert s'.dirs[d] == s.dirs[d].(key := s'.dirs[d].key);
  }

  /** dst is the file at q whose content the upload of src's content sets aside as a
      version and keeps, or has the same content. */
  ghost predicate OldContentKept(env: Env, s: State, owner: string, src: string, q: Path, now: int, dst: string)
    requires q != [] && src in s.files
  {
    var k := UploadKey(env, UploadAt(owner, q, s.files[src].sha.of));
    && FindFile(s.files, k) == Some(dst) && dst in s.files
    && (s.files[dst].sha == s.files[src].sha || SetAside(env, s, k, s.files[src].sha.of, now, dst))
  }

  lemma UploadAtKey(env: Env, s: State, owner: string, q: Path, data: Bytes)
    requires Canonical(q) && q != []
    ensures var k := UploadKey(env, UploadAt(owner, q, data));
            k == Key(env.defaultPool, owner, Parent(q), q[|q| - 1]) && k.Full() == q
  {
    RenderReadsBack(Parent(q));
    assert Parent(q) + [q[|q| - 1]] == q;
  }

  /** A MOVE laid over a file: the destination ends with the source's content, its
      old content joins its history when it differs and versioning is on, the source
      is in the trash as it was. Rows and disk agree exactly when the destination is not in
      the reserved folders; and contents are all in their places unless a version with other
      content is stored there. */
  lemma OverwriteKeepsBoth(env: Env, s: State, owner: string, src: string, q: Path, newId: string, stagingId: string,
                           now: int, s': State)
    requires env.trashEnabled && Agreement(s) && s.clock <= now && newId !in s.files && Canonical(q) && q != []
    requires src in s.files && s.files[src].key.Full() != q
    requires MovesOver(env, s, owner, src, q, newId, stagingId, now, s', Done)
    ensures Agreement(s') <==> OutsideReserved(q)
    ensures Backed(s')
       <==> !HitsVersion(s, Key(env.defaultPool, owner, Parent(q), q[|q| - 1]), s.files[src].sha.of)
    ensures src in s'.files && s'.files[src] == s.files[src].(deletedAt := Some(now))
            && History(s', src) == History(s, src)
    ensures var k := Key(env.defaultPool, owner, Parent(q), q[|q| - 1]);
            var found := FindFile(s.files, k);
            var dst := if found.Some? then found.value else newId;
            && dst in s'.files && dst != src && s'.files[dst].key == k
            && s'.files[dst].sha == s.files[src].sha && s'.files[dst].deletedAt.None?
            && (found.Some? && dst in s.files ==>
                  Contents(s', dst) + (if env.versioningEnabled && s.files[dst].sha != s.files[src].sha
                                       then Lost(env, s, dst, now) else multiset{s.files[dst].sha})
                  == Contents(s, dst) + multiset{s.files[src].sha})
  {
    var data := s.files[src].sha.of;
    var up := UploadAt(owner, q, data);
    UploadAtKey(env, s, owner, q, data);
    var s1 := Uploaded(env, s, up, newId, stagingId, now);
    OverwrittenRows(env, s, UploadKey(env, up), data, newId, stagingId, now, src);
    UploadBackedIff(env, s, up, newId, stagingId, now);
    TrashedIsBacked(env, s1, src, now);
    if OutsideReserved(q) {
      UploadStepKeeps(env, s, up, newId, stagingId, now, s1, None);
      TrashedKeeps(env, s1, src, now);
    } else {
      assert !UserPaths(s'.files, s'.dirs);
    }
  }

  /** An agreed MOVE of a file over an active file of the default pool is carried out. */
  lemma AgreedMoveGoesThrough(env: Env, s: State, owner: string, src: string, q: Path, dst: string, newId: string,
                              stagingId: string, now: int, s': State, a: Answer)
    requires Agreement(s) && Canonical(q) && q != [] && src in s.files
    requires Replaces(env, s, owner, File(src), q, newId, stagingId, now, s', a)
    requires dst in s.files && s.files[dst].key == Key(env.defaultPool, owner, Parent(q), q[|q| - 1])
    requires s.files[dst].deletedAt.None? && ValidName(q[|q| - 1]) && env.defaultPool in env.pools
    ensures a == Done
  {
    UploadAtKey(env, s, owner, q, s.files[src].sha.of);
    OverwriteGoesThrough(env, s, UploadAt(owner, q, s.files[src].sha.of), dst);
  }

  lemma TrashedIsBacked(env: Env, s: State, id: string, now: int)
    requires env.trashEnabled && id in s.files
    ensures Backed(FileDeleted(env, s, id, now)) <==> Backed(s)
  {
    var r := FileDeleted(env, s, id, now);
    assert forall j | j in s.files :: r.files[j].key == s.files[j].key && r.files[j].sha == s.files[j].sha;
    MarkedIsBacked(s, r);
  }

  lemma MarkedIsBacked(s: State, r: State)
    requires r.files.Keys == s.files.Keys && r.versions == s.versions && r.tree == s.tree
    requires forall j | j in s.files ::
               && r.files[j].key == s.files[j].key && r.files[j].sha == s.files[j].sha
               && r.files[j].size == s.files[j].size
    ensures Backed(r) <==> Backed(s)
  {
    assert RowsBacked(r.files, r.tree) <==> RowsBacked(s.files, s.tree);
    assert HistoryBacked(r.files, r.versions, r.tree) <==> HistoryBacked(s.files, s.versions, s.tree);
    forall p ensures Recorded(r.files, r.versions, p) <==> Recorded(s.files, s.versions, p) {}
  }

  lemma OverwrittenRows(env: Env, s: State, k: Key, data: Bytes, newId: string, stagingId: string, now: int,
                        src: string)
    requires env.trashEnabled && newId !in s.files && src in s.files && s.files[src].key != k
    ensures var found := FindFile(s.files, k);
            var dst := if found.Some? then found.value else newId;
            var s1 := Stored(env, s, k, data, newId, stagingId, now);
            && src in s1.files
            && var s' := FileDeleted(env, s1, src, now);
               && s'.files[src] == s.files[src].(deletedAt := Some(now)) && History(s', src) == History(s, src)
               && dst in s'.files && dst != src && s'.files[dst].key == k
               && s'.files[dst].sha == Sha256(data) && s'.files[dst].deletedAt.None?
               && (found.Some? && dst in s.files ==>
                     Contents(s', dst) + (if env.versioningEnabled && s.files[dst].sha != Sha256(data)
                                          then Lost(env, s, dst, now) else multiset{s.files[dst].sha})
                     == Contents(s, dst) + multiset{Sha256(data)})
  {
    match FindFile(s.files, k) {
      case None =>
      case Some(dst) => UploadConservesContents(env, s, k, data, newId, stagingId, now, dst);
    }
  }

  /** An upload elsewhere leaves a file's row alone. */
  lemma SourceStays(env: Env, s: State, up: UploadInput, newId: string, stagingId: string, now: int, src: string)
    requires src in s.files && s.files[src].key != UploadKey(env, up) && newId !in s.files && up.source.Complete?
    ensures var s1 := Uploaded(env, s, up, newId, stagingId, now);
            src in s1.files && s1.files[src] == s.files[src] && History(s1, src) == History(s, src)
  {}

  /** Only active items at or below the path may have gone to the trash. */
  ghost predicate OnlyUnder(s: State, s': State, owner: string, path: Path, now: int) {
    && s'.files.Keys == s.files.Keys && s'.dirs.Keys == s.dirs.Keys
    && (forall j | j in s.files :: s'.files[j] == s.files[j]
          || (FileUnder(s.files[j], owner, path) && s'.files[j] == s.files[j].(deletedAt := Some(now))))
    && (forall j | j in s.dirs :: s'.dirs[j] == s.dirs[j]
          || ((DirUnder(s.dirs[j], owner, path) || IsActiveDir(s, j, owner, path))
              && s'.dirs[j] == s.dirs[j].(deletedAt := Some(now))))
    && s'.versions == s.versions && s'.tree.content == s.tree.content
  }

  /** What deleting the item e at a path leaves: an item not there changes nothing;
      a file goes to the trash alone; a folder goes, and on an ancestor-closed tree
      everything active below it. No content leaves the disk. */
  ghost predicate Removed(s: State, s': State, owner: string, path: Path, e: Option<Entry>, now: int) {
    match e
    case None => s' == s
    case Some(Root) => false
    case Some(File(f)) => Trashes(s, s', {f}, {}, now)
    case Some(Folder(d)) =>
      && OnlyUnder(s, s', owner, path, now)
      && d in s'.dirs && s'.dirs[d].deletedAt.Some?
      && (AncestorClosed(s, owner, path) ==>
            Trashes(s, s', FilesUnder(s.files, owner, path), DirsUnder(s.dirs, owner, path) + {d}, now))
  }

  lemma SweptWhole(s: State, s': State, owner: string, path: Path, root: string, fs: set<string>, ds: set<string>,
                   now: int)
    requires Trashes(s, s', fs, ds, now) && Emptied(s', owner, ds)
    requires root in ds && IsActiveDir(s, root, owner, path)
    requires fs <= FilesUnder(s.files, owner, path) && ds <= DirsUnder(s.dirs, owner, path) + {root}
    ensures Removed(s, s', owner, path, Some(Folder(root)), now)
  {
    if AncestorClosed(s, owner, path) {
      SweepsAll(s, s', owner, path, root, fs, ds, now);
    }
  }

  function Members(ids: seq<string>): set<string> {
    set x | x in ids
  }

  lemma TrashesOneMore(s: State, s1: State, s2: State, ids: seq<string>, i: nat, now: int)
    requires i < |ids| && Trashes(s, s1, Members(ids[..i]), {}, now) && Trashes(s1, s2, {ids[i]}, {}, now)
    ensures Trashes(s, s2, Members(ids[..i + 1]), {}, now)
  {}

  lemma FoldersUnmarked(s: State, s1: State, fs: set<string>, now: int)
    requires Trashes(s, s1, fs, {}, now)
    ensures s1.dirs == s.dirs
  {}

  lemma RootStays(s: State, owner: string, path: Path, root: string)
    requires IsActiveDir(s, root, owner, path)
    ensures root !in DirsUnder(s.dirs, owner, path)
  {}

  lemma FullAt(path: Path)
    requires path != []
    ensures forall k: Key :: k.Full() == path <==> k.parent == Parent(path) && k.name == path[|path| - 1]
  {}

  /** With its files and subfolders gone, a folder lists nothing. */
  lemma SweptBelow(s: State, s1: State, s2: State, owner: string, path: Path, fileIds: seq<string>, dirIds: seq<string>,
                   f2: set<string>, d2: set<string>, now: int)
    requires forall d :: d in dirIds <==> d in s.dirs && ActiveDirIn(s.dirs[d], owner, path)
    requires forall f :: f in fileIds <==> f in s.files && ActiveFileIn(s.files[f], owner, path)
    requires Trashes(s, s1, Members(fileIds), {}, now) && Trashes(s1, s2, f2, d2, now)
    requires forall d | d in dirIds :: d in d2
    requires f2 <= FilesUnder(s1.files, owner, path) && d2 <= DirsUnder(s1.dirs, owner, path)
    ensures Trashes(s, s2, Members(fileIds) + f2, d2, now)
    ensures Members(fileIds) + f2 <= FilesUnder(s.files, owner, path)
    ensures d2 <= DirsUnder(s.dirs, owner, path)
    ensures !HasActiveItems(s2, owner, path)
  {
    TrashesMore(s, s1, s2, Members(fileIds), {}, f2, d2, now);
    assert {} + d2 == d2;
    forall j | j in s2.files ensures !ActiveFileIn(s2.files[j], owner, path) {
      assert j in fileIds ==> s1.files[j].deletedAt.Some?;
    }
    forall j | j in s2.dirs ensures !ActiveDirIn(s2.dirs[j], owner, path) {
      assert s1.dirs[j] == s.dirs[j];
    }
  }

  lemma SweptRoot(s: State, s2: State, s3: State, owner: string, root: string, fs: set<string>, ds: set<string>,
                  now: int)
    requires Trashes(s, s2, fs, ds, now) && Emptied(s2, owner, ds)
    requires root in s2.dirs && !HasActiveItems(s2, owner, s2.dirs[root].key.Full())
    requires Trashes(s2, s3, {}, {root}, now)
    ensures Trashes(s, s3, fs, ds + {root}, now) && Emptied(s3, owner, ds + {root})
  {
    TrashesMore(s, s2, s3, fs, ds, {}, {root}, now);
    assert fs + {} == fs;
    assert Emptied(s2, owner, ds + {root});
    EmptiedStays(s2, s3, owner, ds + {root}, {}, {root}, now);
  }

  lemma SweptChild(s: State, s1: State, s2: State, owner: string, path: Path, ids: seq<string>, i: nat,
                   fs: set<string>, ds: set<string>, f2: set<string>, d2: set<string>, now: int)
    requires Distinct(ids) && i < |ids|
    requires forall d | d in ids :: d in s.dirs && ActiveDirIn(s.dirs[d], owner, path)
    requires Trashes(s, s1, fs, ds, now) && Emptied(s1, owner, ds)
    requires fs <= FilesUnder(s.files, owner, path) && ds <= DirsUnder(s.dirs, owner, path)
    requires forall d | d in ds :: d in ids ==> d in ids[..i]
    requires Trashes(s1, s2, f2, d2, now) && Emptied(s2, owner, d2)
    requires var child := s.dirs[ids[i]].key.Full();
             f2 <= FilesUnder(s1.files, owner, child) && d2 <= DirsUnder(s1.dirs, owner, child) + {ids[i]}
    ensures Trashes(s, s2, fs + f2, ds + d2, now) && Emptied(s2, owner, ds + d2)
    ensures fs + f2 <= FilesUnder(s.files, owner, path) && ds + d2 <= DirsUnder(s.dirs, owner, path)
    ensures forall d | d in ds + d2 :: d in ids ==> d in ids[..i + 1]
  {
    TrashesMore(s, s1, s2, fs, ds, f2, d2, now);
    EmptiedStays(s1, s2, owner, ds, f2, d2, now);
    assert ids[..i + 1] == ids[..i] + [ids[i]];
  }
}
