/** The disk below the storage roots, and the provider that changes it
    (internal/storage/local_provider.go). Every pool is a top-level folder. */
module PhysicalTree {
  import opened Base

  /** What a stream delivers: all of its bytes, or an error on the way. */
  datatype Source = Complete(data: Bytes) | Broken

  datatype Tree = Tree(content: map<Path, Bytes>, dirs: set<Path>)

  datatype DeleteResult = Deleted | NotEmpty | Unreachable

  ghost predicate WellFormed(t: Tree) {
    && t.content.Keys !! t.dirs
    && (forall p | p in t.content :: p != [] && Parent(p) in t.dirs)
    && (forall p | p in t.dirs :: p != [] ==> Parent(p) in t.dirs)
  }

  /** A file stands at p or above it, so no folder can be made at p. */
  predicate Blocked(t: Tree, p: Path) {
    exists i | 0 <= i <= |p| :: p[..i] in t.content
  }

  function AddDirs(t: Tree, p: Path): Tree {
    t.(dirs := t.dirs + Prefixes(p))
  }

  predicate Childless(t: Tree, p: Path) {
    && (forall q | q in t.content :: q != [] ==> Parent(q) != p)
    && (forall q | q in t.dirs :: q != [] ==> Parent(q) != p)
  }

  /** When os.Rename, after creating the target's parent folder, succeeds: an
      existing folder is never replaced, a file replaces only a file, and a
      folder never moves into itself. */
  predicate CanMove(t: Tree, a: Path, b: Path) {
    && b != []
    && !Blocked(t, Parent(b))
    && b !in t.dirs
    && (a in t.content || (a in t.dirs && b !in t.content && !(a <= b)))
  }

  /** The tree after moving a to b: a file changes its name, a folder takes
      along everything below it. */
  function Moved(t: Tree, a: Path, b: Path): Tree
    requires CanMove(t, a, b)
  {
    var dirs := t.dirs + Prefixes(Parent(b));
    if a in t.content then
      Tree((t.content - {a})[b := t.content[a]], dirs)
    else
      Tree(map q | q in (set p | p in t.content :: Rebase(a, b, p)) && Rebase(b, a, q) in t.content
               :: t.content[Rebase(b, a, q)],
           set p | p in dirs :: Rebase(a, b, p))
  }

  function DeleteOutcome(t: Tree, p: Path): DeleteResult {
    if p in t.content then Deleted
    else if p in t.dirs then if Childless(t, p) then Deleted else NotEmpty
    else if Blocked(t, p) then Unreachable
    else Deleted
  }

  function AfterDelete(t: Tree, p: Path): Tree {
    if p in t.content then t.(content := t.content - {p})
    else if DeleteOutcome(t, p).Deleted? then t.(dirs := t.dirs - {p})
    else t
  }

  lemma PrefixIsDir(t: Tree, p: Path, i: nat)
    requires WellFormed(t)
    requires p in t.content || p in t.dirs
    requires i < |p|
    ensures p[..i] in t.dirs
    decreases |p|
  {
    assert Parent(p) in t.dirs;
    if i < |p| - 1 {
      PrefixIsDir(t, Parent(p), i);
      assert Parent(p)[..i] == p[..i];
    }
  }

  lemma DirNotBlocked(t: Tree, p: Path)
    requires WellFormed(t)
    requires p in t.dirs
    ensures !Blocked(t, p)
    ensures Prefixes(p) <= t.dirs
  {
    forall i | 0 <= i <= |p| ensures p[..i] in t.dirs {
      if i < |p| {
        PrefixIsDir(t, p, i);
      } else {
        assert p[..i] == p;
      }
    }
  }

  /** A folder can be deleted exactly when nothing lies below it, however deep. */
  lemma OnlyEmptyFoldersGo(t: Tree, p: Path)
    requires WellFormed(t) && p in t.dirs
    ensures DeleteOutcome(t, p) == if exists q :: (q in t.content || q in t.dirs) && p < q then NotEmpty else Deleted
  {
    if q :| (q in t.content || q in t.dirs) && p < q {
      var child := q[..|p| + 1];
      assert Parent(child) == p && child != [];
      if child != q {
        PrefixIsDir(t, q, |p| + 1);
      } else {
        assert q == child;
      }
    }
  }

  lemma AddDirsWellFormed(t: Tree, p: Path)
    requires WellFormed(t)
    requires !Blocked(t, p)
    ensures WellFormed(AddDirs(t, p))
    ensures p in AddDirs(t, p).dirs
  {
    assert p == p[..|p|];
    forall q | q in Prefixes(p) && q != [] ensures Parent(q) in Prefixes(p) {
      assert Parent(q) == p[..|q| - 1];
    }
  }

  /** Rebasing there and back, on any path not already below the target. */
  lemma RebaseBack(a: Path, b: Path, p: Path)
    requires !(b <= p) || a <= p
    requires !(b <= a)
    ensures Rebase(b, a, Rebase(a, b, p)) == p
  {}

  lemma RebaseParent(a: Path, b: Path, p: Path)
    requires a < p && b != []
    ensures a <= Parent(p) && Rebase(a, b, p) != []
    ensures Parent(Rebase(a, b, p)) == Rebase(a, b, Parent(p))
  {}

  /** Nothing lies below a place that is not a folder. */
  lemma NothingBelow(t: Tree, b: Path)
    requires WellFormed(t)
    requires b !in t.dirs
    ensures forall p | p in t.content && b <= p :: p == b
    ensures forall p | p in t.dirs :: !(b <= p)
  {
    forall p | (p in t.content || p in t.dirs) && b <= p && p != b ensures false {
      assert p[..|b|] == b;
      PrefixIsDir(t, p, |b|);
    }
  }

  /** What moving a folder does, path by path. */
  lemma MovedFolder(t: Tree, a: Path, b: Path)
    requires WellFormed(t)
    requires CanMove(t, a, b) && a !in t.content
    ensures forall p | p in t.content ::
              Rebase(a, b, p) in Moved(t, a, b).content && Moved(t, a, b).content[Rebase(a, b, p)] == t.content[p]
    ensures forall q | q in Moved(t, a, b).content :: Rebase(b, a, q) in t.content && Rebase(a, b, Rebase(b, a, q)) == q
    ensures !(b <= a)
  {
    NothingBelow(t, b);
    assert !(b <= a);
    forall p | p in t.content
      ensures Rebase(b, a, Rebase(a, b, p)) == p
      ensures Rebase(a, b, p) in Moved(t, a, b).content
      ensures Moved(t, a, b).content[Rebase(a, b, p)] == t.content[p]
    {
      RebaseBack(a, b, p);
    }
  }

  lemma MovedWellFormed(t: Tree, a: Path, b: Path)
    requires WellFormed(t)
    requires CanMove(t, a, b)
    ensures WellFormed(Moved(t, a, b))
  {
    AddDirsWellFormed(t, Parent(b));
    if a in t.content {
      PrefixesStop(t, a);
    } else {
      MovedFolderWellFormed(t, a, b);
    }
  }

  lemma PrefixesStop(t: Tree, a: Path)
    requires WellFormed(t)
    requires a in t.content
    ensures a !in t.dirs
  {}

  /** After the move every rebased path still hangs from a folder. */
  lemma MovedParents(t: Tree, a: Path, b: Path, p: Path)
    requires WellFormed(t)
    requires CanMove(t, a, b) && a !in t.content
    requires p in t.content || p in AddDirs(t, Parent(b)).dirs
    requires p != []
    ensures Rebase(a, b, p) != [] && Parent(Rebase(a, b, p)) in Moved(t, a, b).dirs
  {
    var t1 := AddDirs(t, Parent(b));
    AddDirsWellFormed(t, Parent(b));
    assert Parent(p) in t1.dirs && Parent(b) in t1.dirs;
    assert Rebase(a, b, Parent(p)) in Moved(t, a, b).dirs;
    if a < p {
      RebaseParent(a, b, p);
    } else if a == p {
      assert Rebase(a, b, p) == b;
      assert !(a <= Parent(b));
      assert Rebase(a, b, Parent(b)) == Parent(b);
    } else {
      assert !(a <= Parent(p));
    }
  }

  lemma MovedDirsUnder(t: Tree, a: Path, b: Path)
    requires WellFormed(t)
    requires CanMove(t, a, b) && a !in t.content
    ensures forall d | d in AddDirs(t, Parent(b)).dirs :: !(b <= d)
  {
    NothingBelow(t, b);
    forall d | d in Prefixes(Parent(b)) ensures !(b <= d) {
      assert |d| < |b|;
    }
  }

  lemma MovedFolderWellFormed(t: Tree, a: Path, b: Path)
    requires WellFormed(t)
    requires CanMove(t, a, b) && a !in t.content
    ensures WellFormed(Moved(t, a, b))
  {
    var t1 := AddDirs(t, Parent(b));
    var m := Moved(t, a, b);
    MovedFolder(t, a, b);
    forall q | q in m.content ensures q != [] && Parent(q) in m.dirs {
      MovedParents(t, a, b, Rebase(b, a, q));
    }
    forall q | q in m.dirs && q != [] ensures Parent(q) in m.dirs {
      var d :| d in t1.dirs && Rebase(a, b, d) == q;
      if d != [] {
        MovedParents(t, a, b, d);
      }
    }
    MovedDirsUnder(t, a, b);
    AddDirsWellFormed(t, Parent(b));
    forall q | q in m.dirs ensures q !in m.content {
      var d :| d in t1.dirs && Rebase(a, b, d) == q;
      RebaseBack(a, b, d);
    }
  }

  lemma PrefixesNest(a: Path, b: Path, p: Path)
    requires a <= p && b <= p
    ensures a <= b || b <= a
  {}

  /** Once a folder has moved from a to b, nothing is left at or below a. */
  lemma MovedAway(t: Tree, a: Path, b: Path)
    requires WellFormed(t)
    requires CanMove(t, a, b) && a !in t.content
    ensures forall q | q in Moved(t, a, b).content || q in Moved(t, a, b).dirs :: !(a <= q)
    ensures b in Moved(t, a, b).dirs
  {
    NothingBelow(t, b);
    MovedFolder(t, a, b);
    forall p ensures !(a <= Rebase(a, b, p)) {
      if a <= Rebase(a, b, p) {
        PrefixesNest(a, b, Rebase(a, b, p));
      }
    }
    assert Rebase(a, b, a) == b;
  }

  /** Renaming a folder and renaming it back restores every file and folder;
      only the folders made above the target stay. */
  lemma MoveThereAndBack(t: Tree, a: Path, b: Path)
    requires WellFormed(t)
    requires CanMove(t, a, b) && a !in t.content
    ensures CanMove(Moved(t, a, b), b, a)
    ensures b !in Moved(t, a, b).content
    ensures Moved(Moved(t, a, b), b, a) == AddDirs(t, Parent(b))
  {
    var m := Moved(t, a, b);
    var t1 := AddDirs(t, Parent(b));
    MovedWellFormed(t, a, b);
    MovedAway(t, a, b);
    MovedFolder(t, a, b);
    AddDirsWellFormed(t, Parent(b));
    assert a in t1.dirs && Parent(a) in t1.dirs;
    assert Rebase(a, b, Parent(a)) == Parent(a);
    DirNotBlocked(m, Parent(a));
    BackContent(t, a, b);
    BackDirs(t, a, b);
  }

  lemma BackContent(t: Tree, a: Path, b: Path)
    requires WellFormed(t)
    requires CanMove(t, a, b) && a !in t.content
    requires CanMove(Moved(t, a, b), b, a) && b !in Moved(t, a, b).content
    ensures Moved(Moved(t, a, b), b, a).content == t.content
  {
    var m := Moved(t, a, b);
    MovedWellFormed(t, a, b);
    MovedFolder(m, b, a);
    var back := Moved(m, b, a).content;
    forall p | p in t.content ensures p in back && back[p] == t.content[p] {
      ThereAndBack(t, a, b, p);
    }
    forall q | q in back ensures q in t.content {
      BackWasThere(t, a, b, q);
    }
  }

  /** A file's new place leads back to its old one. */
  lemma ThereAndBack(t: Tree, a: Path, b: Path, p: Path)
    requires WellFormed(t) && CanMove(t, a, b) && a !in t.content && p in t.content
    ensures var q, m := Rebase(a, b, p), Moved(t, a, b);
            q in m.content && m.content[q] == t.content[p] && Rebase(b, a, q) == p
  {
    MovedFolder(t, a, b);
    NothingBelow(t, b);
    RebaseBack(a, b, p);
  }

  lemma BackWasThere(t: Tree, a: Path, b: Path, q: Path)
    requires WellFormed(t) && CanMove(t, a, b) && a !in t.content
    requires CanMove(Moved(t, a, b), b, a) && b !in Moved(t, a, b).content
    requires q in Moved(Moved(t, a, b), b, a).content
    ensures q in t.content
  {}

  lemma BackDirs(t: Tree, a: Path, b: Path)
    requires WellFormed(t)
    requires CanMove(t, a, b) && a !in t.content
    requires CanMove(Moved(t, a, b), b, a) && b !in Moved(t, a, b).content
    requires Prefixes(Parent(a)) <= Moved(t, a, b).dirs
    ensures Moved(Moved(t, a, b), b, a).dirs == AddDirs(t, Parent(b)).dirs
  {
    var m := Moved(t, a, b);
    var t1 := AddDirs(t, Parent(b));
    MovedDirsUnder(t, a, b);
    assert m.dirs + Prefixes(Parent(a)) == m.dirs;
    forall d | d in t1.dirs ensures d in Moved(m, b, a).dirs {
      RebaseBack(a, b, d);
      assert Rebase(a, b, d) in m.dirs;
    }
    forall q | q in Moved(m, b, a).dirs ensures q in t1.dirs {
      var d :| d in m.dirs && Rebase(b, a, d) == q;
      var e :| e in t1.dirs && Rebase(a, b, e) == d;
      RebaseBack(a, b, e);
    }
  }

  class LocalProvider {
    var tree: Tree
    /** The tree after each change, oldest first. */
    ghost var trace: seq<Tree>

    /** Writes a stream to a temporary file and renames it into place; a broken
        stream leaves nothing. */
    method Write(p: Path, src: Source) returns (ok: bool)
      requires p != []
      modifies this
      ensures ok <==> src.Complete? && !Blocked(old(tree), Parent(p)) && p !in old(tree).dirs + Prefixes(Parent(p))
      ensures ok ==> tree == AddDirs(old(tree), Parent(p)).(content := old(tree).content[p := src.data])
      ensures !ok ==> tree == if Blocked(old(tree), Parent(p)) then old(tree) else AddDirs(old(tree), Parent(p))
      ensures trace == old(trace) + [tree]
    {
      var made := MakeParents(p);
      ok := made && src.Complete? && p !in tree.dirs;
      if ok {
        tree := tree.(content := tree.content[p := src.data]);
      }
      trace := trace + [tree];
    }

    method MakeParents(p: Path) returns (ok: bool)
      requires p != []
      modifies this
      ensures ok <==> !Blocked(old(tree), Parent(p))
      ensures tree == if ok then AddDirs(old(tree), Parent(p)) else old(tree)
      ensures trace == old(trace)
    {
      ok := !Blocked(tree, Parent(p));
      if ok {
        tree := AddDirs(tree, Parent(p));
      }
    }

    method MkdirAll(p: Path) returns (ok: bool)
      modifies this
      ensures ok <==> !Blocked(old(tree), p)
      ensures tree == if ok then AddDirs(old(tree), p) else old(tree)
      ensures ok ==> p in tree.dirs
      ensures trace == old(trace) + [tree]
    {
      assert p[..|p|] == p;
      ok := !Blocked(tree, p);
      if ok {
        tree := AddDirs(tree, p);
      }
      trace := trace + [tree];
    }

    method Move(a: Path, b: Path) returns (ok: bool)
      requires b != []
      modifies this
      ensures ok <==> CanMove(old(tree), a, b)
      ensures ok ==> tree == Moved(old(tree), a, b)
      ensures !ok ==> tree == if Blocked(old(tree), Parent(b)) then old(tree) else AddDirs(old(tree), Parent(b))
      ensures trace == old(trace) + [tree]
    {
      ok := CanMove(tree, a, b);
      if ok {
        tree := Moved(tree, a, b);
      } else {
        var made := MakeParents(b);
      }
      trace := trace + [tree];
    }

    /** os.Remove, where a missing entry counts as removed. */
    method Delete(p: Path) returns (r: DeleteResult)
      modifies this
      ensures r == DeleteOutcome(old(tree), p)
      ensures tree == AfterDelete(old(tree), p)
      ensures trace == old(trace) + [tree]
    {
      r := Deleted;
      if p in tree.content {
        tree := tree.(content := tree.content - {p});
      } else if p !in tree.dirs {
        r := if Blocked(tree, p) then Unreachable else Deleted;
        assert tree.dirs - {p} == tree.dirs;
      } else {
        if Childless(tree, p) {
          tree := tree.(dirs := tree.dirs - {p});
        } else {
          r := NotEmpty;
        }
      }
      trace := trace + [tree];
    }
  }
}
