/** SafeJoinResolved: a joined path is also checked against symbolic links, by looking
    upwards for the deepest part of it that exists (internal/storage/path.go). What the
    file system answers is a parameter. */
module SymlinkGuard {
  import opened Base
  import opened PathStrings

  datatype Stat = Missing | Plain | Symlink | Fault

  /** os.Lstat and filepath.EvalSymlinks at the moment of the check. */
  datatype FileSystem = FileSystem(lstat: Path -> Stat, eval: Path -> Option<Path>)

  /** EvalSymlinks answers clean absolute paths. */
  ghost predicate AnswersCleanly(fs: FileSystem) {
    forall p: Path :: fs.eval(p).Some? ==> Canonical(fs.eval(p).value)
  }

  /** The deepest part of full that exists, the root counting as existing. */
  function Deepest(fs: FileSystem, root: Path, full: Path): (p: Path)
    requires root <= full
    ensures root <= p <= full && (p == root || fs.lstat(p) != Missing)
    decreases |full|
  {
    if full == root || fs.lstat(full) != Missing then full else Deepest(fs, root, Parent(full))
  }

  /** Nothing deeper exists. */
  lemma {:induction false} NothingDeeper(fs: FileSystem, root: Path, full: Path, q: Path)
    requires root <= full && Deepest(fs, root, full) < q <= full
    ensures fs.lstat(q) == Missing
    decreases |full|
  {
    if q != full {
      assert q <= Parent(full);
      NothingDeeper(fs, root, Parent(full), q);
    }
  }

  /** The existing part is the root, or no link and, links on the way to it followed,
      inside the root. */
  predicate StaysInside(fs: FileSystem, root: Path, full: Path)
    requires root <= full
  {
    var p := Deepest(fs, root, full);
    p == root || (fs.lstat(p).Plain? && fs.eval(p).Some? && root <= fs.eval(p).value)
  }

  /** A path is handed out exactly when it has no NUL and its existing part stays inside
      the root; it is then the root extended by the clean segments of the request. With the
      root of the file system as storage root only that itself is. */
  method SafeJoinResolved(fs: FileSystem, root: Path, rel: string) returns (r: Option<string>)
    requires Canonical(root) && AnswersCleanly(fs)
    ensures r.Some? <==>
              && '\0' !in rel && (root != [] || CleanSegments(rel) == [])
              && StaysInside(fs, root, root + CleanSegments(rel))
    ensures r.Some? ==> r.value == Render(root + CleanSegments(rel))
  {
    SafeJoinStaysInside(root, rel);
    var full := SafeJoin(Render(root), rel);
    if full.None? {
      return None;
    }
    var target := root + CleanSegments(rel);
    var probe := target;
    while probe != root && fs.lstat(probe).Missing?
      invariant root <= probe <= target && Deepest(fs, root, probe) == Deepest(fs, root, target)
      decreases |probe|
    {
      probe := Parent(probe);
    }
    if probe == root {
      return full;
    }
    if !fs.lstat(probe).Plain? || fs.eval(probe).None? {
      return None;
    }
    var resolved := fs.eval(probe).value;
    BelowIsPathPrefix(root, resolved);
    if Render(resolved) != Render(root) && !(Render(root) + "/" <= Render(resolved)) {
      return None;
    }
    r := full;
  }
}
