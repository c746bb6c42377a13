/** Facts the step-by-step methods of FileService lean on. */
module ServiceLemmas {
  import opened Base
  import opened PathStrings
  import opened PhysicalTree
  import opened StorageModel
  import opened VersionPruning
  import opened Content
  import opened Uploads
  import opened Moves
  import opened Trash

  /** From tree t0 on, every recorded tree differs at most at the places xs. */
  ghost predicate OnlyAt(t0: Tree, xs: set<Path>, before: seq<Tree>, after: seq<Tree>) {
    && before <= after
    && forall i | |before| <= i < |after| :: SameOutside(t0, after[i], xs)
  }

  lemma OnlyAtExtend(t0: Tree, xs: set<Path>, before: seq<Tree>, after: seq<Tree>, t: Tree)
    requires OnlyAt(t0, xs, before, after) && SameOutside(t0, t, xs)
    ensures OnlyAt(t0, xs, before, after + [t])
  {}

  // ----- the pruning loop

  /** The state of the pruning loop before round i: the votes against k and later
      versions have been carried out up to i. */
  function AfterVotes(s: State, id: string, k: nat, i: nat): State
    requires id in s.versions && k <= |s.versions[id]| && i <= |s.versions[id]|
  {
    if i <= k then s
    else
      var vs := s.versions[id];
      s.(versions := s.versions[id := vs[..k] + vs[i..]],
         tree := s.tree.(content := s.tree.content - KeysOf(vs[k..i])))
  }

  lemma PruneDisk(t0: Tree, f: Key, id: string, vs: seq<VersionRow>, k: nat, i: nat, upTo: int)
    requires ListBacked(t0, f, id, vs) && Ordered(vs, upTo) && k <= i < |vs|
    ensures vs[i].key in t0.content && vs[i].key !in KeysOf(vs[k..i])
    ensures t0.content - KeysOf(vs[k..i]) - {vs[i].key} == t0.content - KeysOf(vs[k..i + 1])
    ensures KeysOf(vs[k..i + 1]) <= KeysOf(vs[k..])
  {
    assert VersionBacked(t0, f, id, vs[i]);
    forall x | 0 <= x < i - k ensures vs[k..i][x].key != vs[i].key {
      assert VersionBacked(t0, f, id, vs[k + x]);
    }
    KeysExtend(vs, k, i);
    assert vs[k..i + 1] == vs[k..][..i + 1 - k];
    KeysSplit(vs[k..], i + 1 - k);
  }

  lemma PruneRow(vs: seq<VersionRow>, k: nat, i: nat, upTo: int)
    requires Ordered(vs, upTo) && k <= i < |vs|
    ensures Without(vs[..k] + vs[i..], vs[i].num) == vs[..k] + vs[i + 1..]
  {
    var left := vs[..k] + vs[i..];
    assert left[k] == vs[i];
    forall x | 0 <= x < |left| && x != k ensures left[x].num != left[k].num {
      assert left[x] == if x < k then vs[x] else vs[i + x - k];
    }
    WithoutAt(left, k);
    assert left[..k] + left[k + 1..] == vs[..k] + vs[i + 1..];
  }

  lemma VoteStart(s: State, id: string, k: nat)
    requires id in s.versions && k < |s.versions[id]|
    ensures var vs := s.versions[id];
            AfterVotes(s, id, k, k) == s.(versions := s.versions[id := vs[..k] + vs[k..]],
                                          tree := s.tree.(content := s.tree.content - KeysOf(vs[k..k])))
  {
    var vs := s.versions[id];
    assert vs[..k] + vs[k..] == vs;
    assert s.tree.content - KeysOf(vs[k..k]) == s.tree.content;
  }

  /** Carrying out one more vote: the version is on disk, and taking it out of the
      rows and off the disk gives the next round's state. */
  lemma VoteStep(s: State, id: string, k: nat, i: nat, upTo: int)
    requires id in s.files && id in s.versions && k <= i < |s.versions[id]|
    requires Ordered(s.versions[id], upTo)
    requires ListBacked(s.tree, s.files[id].key, id, s.versions[id])
    ensures var a, v := AfterVotes(s, id, k, i), s.versions[id][i];
            && v.key in a.tree.content && id in a.versions
            && AfterVotes(s, id, k, i + 1)
               == a.(versions := a.versions[id := Without(a.versions[id], v.num)],
                     tree := a.tree.(content := a.tree.content - {v.key}))
            && SameOutside(s.tree, AfterVotes(s, id, k, i + 1).tree, KeysOf(s.versions[id][k..]))
  {
    var vs := s.versions[id];
    PruneDisk(s.tree, s.files[id].key, id, vs, k, i, upTo);
    PruneRow(vs, k, i, upTo);
    if i == k {
      VoteStart(s, id, k);
    }
  }

  /** The vote as the loop computes it, from its running total. */
  predicate Vote(env: Env, now: int, v: VersionRow, i: nat, total: int) {
    || (env.maxVersions > 0 && i >= env.maxVersions)
    || (env.maxAgeDays > 0 && v.createdAt < Cutoff(env, now))
    || (env.maxBytes > 0 && total > env.maxBytes)
  }

  /** What round i of the pruning loop decides and does. */
  ghost predicate Round(env: Env, now: int, s: State, id: string, k: nat, i: nat)
    requires id in s.versions && k <= |s.versions[id]| && i < |s.versions[id]|
  {
    var vs := s.versions[id];
    var a, b, v := AfterVotes(s, id, k, i), AfterVotes(s, id, k, i + 1), vs[i];
    && TotalSize(vs[..i + 1]) == TotalSize(vs[..i]) + v.size
    && (Vote(env, now, v, i, TotalSize(vs[..i]) + v.size) <==> k <= i)
    && (k <= i ==>
          && v.key in a.tree.content && id in a.versions
          && b == a.(versions := a.versions[id := Without(a.versions[id], v.num)],
                     tree := a.tree.(content := a.tree.content - {v.key}))
          && SameOutside(s.tree, b.tree, KeysOf(vs[k..])))
  }

  lemma Rounds(env: Env, now: int, s: State, id: string, upTo: int)
    requires id in s.files && id in s.versions && Ordered(s.versions[id], upTo)
    requires ListBacked(s.tree, s.files[id].key, id, s.versions[id])
    ensures var vs := s.versions[id];
            forall i | 0 <= i < |vs| :: Round(env, now, s, id, KeepLen(env, now, vs), i)
  {
    var vs := s.versions[id];
    var k := KeepLen(env, now, vs);
    forall i | 0 <= i < |vs| ensures Round(env, now, s, id, k, i) {
      TotalSizeGrows(vs, i);
      VotesCutAPrefix(env, now, vs, i, upTo);
      if k <= i {
        VoteStep(s, id, k, i, upTo);
      }
    }
  }

  lemma VotesDone(s: State, id: string, k: nat)
    requires id in s.versions && k <= |s.versions[id]|
    ensures AfterVotes(s, id, k, |s.versions[id]|) == Cut(s, id, k)
  {
    var vs := s.versions[id];
    if k == |vs| {
      assert vs[..k] == vs && vs[k..] == [];
      assert s.tree.content - KeysOf(vs[k..]) == s.tree.content;
      assert s.versions[id := vs] == s.versions;
    } else {
      assert vs[..k] + vs[|vs|..] == vs[..k] && vs[k..|vs|] == vs[k..];
    }
  }

  /** With every limit off, everything is kept. */
  lemma NoLimits(env: Env, now: int, vs: seq<VersionRow>)
    requires env.maxVersions <= 0 && env.maxAgeDays <= 0 && env.maxBytes <= 0
    ensures KeepLen(env, now, vs) == |vs|
  {}

  // ----- contents that survive every step

  ghost predicate Holds(t: Tree, data: Bytes) {
    exists p | p in t.content :: t.content[p] == data
  }

  /** Every tree recorded since holds the data. */
  ghost predicate AlwaysHeld(data: Bytes, before: seq<Tree>, after: seq<Tree>) {
    && before <= after
    && forall i | |before| <= i < |after| :: Holds(after[i], data)
  }

  lemma HeldOutside(t0: Tree, xs: set<Path>, before: seq<Tree>, after: seq<Tree>, p: Path)
    requires OnlyAt(t0, xs, before, after) && p in t0.content && p !in xs
    ensures AlwaysHeld(t0.content[p], before, after)
  {}

  lemma OnlyAtWiden(t0: Tree, xs: set<Path>, ys: set<Path>, before: seq<Tree>, after: seq<Tree>)
    requires OnlyAt(t0, xs, before, after) && xs <= ys
    ensures OnlyAt(t0, ys, before, after)
  {}

  /** The start may be any tree that agrees outside the same places. */
  lemma OnlyAtShift(t0: Tree, t1: Tree, xs: set<Path>, before: seq<Tree>, after: seq<Tree>)
    requires OnlyAt(t0, xs, before, after) && SameOutside(t0, t1, xs)
    ensures OnlyAt(t1, xs, before, after)
  {}

  lemma OnlyAtChain(t0: Tree, t1: Tree, xs: set<Path>, a: seq<Tree>, b: seq<Tree>, c: seq<Tree>)
    requires OnlyAt(t0, xs, a, b) && SameOutside(t0, t1, xs) && OnlyAt(t1, xs, b, c)
    ensures OnlyAt(t0, xs, a, c)
  {}

  /** The places a snapshot of a file may touch: its own and its versions'. */
  function Touched(s: State, id: string): set<Path>
    requires id in s.files
  {
    {At(s.files[id].key), NewVersion(s, id).key} + KeysOf(History(s, id))
  }

  // ----- snapshot

  lemma NewVersionKeys(s: State, id: string)
    requires id in s.files && UserPath(s.files[id].key.Full())
    requires ListBacked(s.tree, s.files[id].key, id, History(s, id)) && Ordered(History(s, id), s.files[id].updatedAt)
    ensures var v := NewVersion(s, id);
            && v.key !in KeysOf(History(s, id)) && v.key != At(s.files[id].key)
            && Ordered([v] + History(s, id), s.files[id].updatedAt)
            && KeysOf([v] + History(s, id)) == {v.key} + KeysOf(History(s, id))
  {
    var v, vs := NewVersion(s, id), History(s, id);
    UserPlace(s.files[id].key);
    forall i | 0 <= i < |vs| ensures vs[i].key != v.key {
      assert VersionBacked(s.tree, s.files[id].key, id, vs[i]);
    }
    OrderedCons(v, vs, s.files[id].updatedAt);
    KeysCons(v, vs);
  }

  lemma OrderedCons(v: VersionRow, vs: seq<VersionRow>, upTo: int)
    requires Ordered(vs, upTo) && v.num == NextNum(vs) && v.createdAt == upTo
    ensures Ordered([v] + vs, upTo)
  {}

  /** After the content has moved to the version area, the longer history is on disk. */
  lemma PushedListBacked(s: State, id: string)
    requires id in s.files && UserPath(s.files[id].key.Full()) && RowBacked(s.tree, s.files[id])
    requires ListBacked(s.tree, s.files[id].key, id, History(s, id)) && Ordered(History(s, id), s.files[id].updatedAt)
    ensures var r := Push(s, id); ListBacked(r.tree, r.files[id].key, id, r.versions[id])
  {}

  /** The newest version stays on disk when it is kept at all. */
  lemma NewestStays(t: Tree, k: Key, id: string, vs: seq<VersionRow>, n: nat, upTo: int)
    requires ListBacked(t, k, id, vs) && Ordered(vs, upTo) && 1 <= n <= |vs|
    ensures vs[0].key !in KeysOf(vs[n..]) && vs[0].key in t.content && t.content[vs[0].key] == vs[0].sha.of
  {}

  /** What the disk goes through during a snapshot: only the file's own places
      change, and its content is there throughout when the snapshot is kept. */
  lemma SnapshotTrace(env: Env, s: State, id: string, now: int, t1: Tree, a: seq<Tree>, c: seq<Tree>)
    requires id in s.files && UserPath(s.files[id].key.Full()) && RowBacked(s.tree, s.files[id])
    requires ListBacked(s.tree, s.files[id].key, id, History(s, id)) && Ordered(History(s, id), s.files[id].updatedAt)
    requires t1 == Push(s, id).tree
    requires var all := [NewVersion(s, id)] + History(s, id);
             OnlyAt(t1, KeysOf(all[KeepLen(env, now, all)..]), a + [t1], c)
    ensures OnlyAt(s.tree, Touched(s, id), a, c)
    ensures Kept(env, s, id, now) > 0 ==> AlwaysHeld(s.files[id].sha.of, a, c)
  {
    var f, v, vs := s.files[id], NewVersion(s, id), History(s, id);
    var all := [v] + vs;
    var n := KeepLen(env, now, all);
    NewVersionKeys(s, id);
    PushedListBacked(s, id);
    KeysShape(t1, f.key, id, all);
    KeysSplit(all, n);
    var xs := Touched(s, id);
    OnlyAtWiden(t1, KeysOf(all[n..]), xs, a + [t1], c);
    assert SameOutside(s.tree, t1, xs);
    assert OnlyAt(s.tree, xs, a, a + [t1]);
    OnlyAtChain(s.tree, t1, xs, a, a + [t1], c);
    if n > 0 {
      NewestStays(t1, f.key, id, all, n, f.updatedAt);
      HeldOutside(t1, KeysOf(all[n..]), a + [t1], c, v.key);
      assert Holds(t1, f.sha.of);
      assert c[|a|] == t1;
    }
  }

  // ----- upload

  function Staged(s: State, p: Path, data: Bytes): State {
    s.(tree := s.tree.(content := s.tree.content[p := data]))
  }

  lemma StagingApart(s: State, p: Path)
    requires UserPaths(s.files, s.dirs) && HistoryBacked(s.files, s.versions, s.tree)
    requires NothingElse(s.files, s.versions, s.tree)
    requires |p| == 4 && p[2] == STAGING
    ensures p !in s.tree.content
    ensures forall id | id in s.files :: At(s.files[id].key) != p
  {}

  lemma StagedPush(s: State, id: string, p: Path, data: Bytes)
    requires id in s.files && At(s.files[id].key) != p && NewVersion(s, id).key != p
    ensures Push(Staged(s, p, data), id) == Staged(Push(s, id), p, data)
  {
    assert Push(Staged(s, p, data), id).tree.content == Staged(Push(s, id), p, data).tree.content;
  }

  lemma StagedCut(s: State, id: string, n: nat, p: Path, data: Bytes)
    requires n <= |History(s, id)| && p !in KeysOf(History(s, id))
    ensures Cut(Staged(s, p, data), id, n) == Staged(Cut(s, id, n), p, data)
  {}

  /** No version of the file, the next one included, is at a place this short. */
  lemma VersionsElsewhere(s: State, id: string, p: Path)
    requires id in s.files && |p| == 4 && HistoryBacked(s.files, s.versions, s.tree)
    ensures p !in KeysOf(History(Push(s, id), id)) && NewVersion(s, id).key != p
  {}

  /** A snapshot does not care about the staging file beside it. */
  lemma StagedSnapshot(env: Env, s: State, id: string, now: int, p: Path, data: Bytes)
    requires id in s.files && |p| == 4 && At(s.files[id].key) != p
    requires HistoryBacked(s.files, s.versions, s.tree)
    ensures Snapshot(env, Staged(s, p, data), id, now) == Staged(Snapshot(env, s, id, now), p, data)
  {
    VersionsElsewhere(s, id, p);
    StagedPush(s, id, p, data);
    StagedCut(Push(s, id), id, Kept(env, s, id, now), p, data);
  }

  /** Moving the staging file into an open place. */
  lemma StagingMoves(s: State, k: Key, p: Path, data: Bytes)
    requires |p| == 4 && !(p <= At(k)) && p !in s.tree.content && Open(s.tree, k)
    ensures CanMove(Staged(s, p, data).tree, p, At(k))
    ensures Moved(Staged(s, p, data).tree, p, At(k))
         == Tree(s.tree.content[At(k) := data], s.tree.dirs + Prefixes(Parent(At(k))))
  {
    StagingBlocked(s, k, p, data);
  }

  lemma StagingBlocked(s: State, k: Key, p: Path, data: Bytes)
    requires |p| == 4 && !(p <= At(k)) && p !in s.tree.content
    ensures Blocked(Staged(s, p, data).tree, Parent(At(k))) <==> Blocked(s.tree, Parent(At(k)))
    ensures CanMove(Staged(s, p, data).tree, p, At(k)) <==> Open(s.tree, k)
  {
    forall i | 0 <= i <= |Parent(At(k))| ensures Parent(At(k))[..i] != p {
      assert Parent(At(k))[..i] == At(k)[..i];
    }
  }

  lemma ReadyIsOpen(t: Tree, k: Key)
    requires WellFormed(t) && At(k) !in t.dirs && Parent(At(k)) in t.dirs
    ensures Open(t, k) && t.dirs + Prefixes(Parent(At(k))) == t.dirs
  {
    DirNotBlocked(t, Parent(At(k)));
  }

  /** Writing the staging file always works outside a broken stream. */
  lemma UploadBegins(s: State, k: Key, stagingId: string)
    requires Agreement(s)
    ensures var p := StagingAt(k.pool, k.owner, stagingId);
            var g := Grow(s, Prefixes(Parent(p)));
            && !Blocked(s.tree, Parent(p)) && p !in s.tree.dirs + Prefixes(Parent(p))
            && p !in s.tree.content && Agreement(g)
            && (forall id | id in s.files :: At(s.files[id].key) != p)
  {
    var p := StagingAt(k.pool, k.owner, stagingId);
    ReservedOpen(s, p);
    ReservedNamesDiffer();
    ReservedParent(p);
    StagingApart(s, p);
    GrowKeeps(s, Prefixes(Parent(p)));
  }

  /** An existing file's folders are there already. */
  lemma ExistingOpen(s: State, id: string)
    requires id in s.files && RowBacked(s.tree, s.files[id]) && WellFormed(s.tree)
    ensures Open(s.tree, s.files[id].key)
    ensures Prefixes(Parent(At(s.files[id].key))) <= s.tree.dirs
  {
    DirNotBlocked(s.tree, Parent(At(s.files[id].key)));
  }

  /** What snapshotVersion needs, beside a staging file. */
  lemma SnapshotReady(s: State, id: string, p: Path, data: Bytes)
    requires Agreement(s) && id in s.files && |p| == 4 && p[2] == STAGING
    ensures var t := Staged(s, p, data);
            && UserPath(s.files[id].key.Full()) && RowBacked(t.tree, s.files[id])
            && ListBacked(t.tree, s.files[id].key, id, History(s, id))
            && Ordered(History(s, id), s.files[id].updatedAt)
            && CanMove(t.tree, At(s.files[id].key), NewVersion(s, id).key)
  {
    SnapshotReadyAlone(s, id);
    StagingApart(s, p);
    StagedList(s, id, p, data);
    StagedCanMove(s.tree, At(s.files[id].key), NewVersion(s, id).key, p, data);
  }

  /** A staging file in the way of nothing. */
  lemma StagedCanMove(t: Tree, a: Path, b: Path, p: Path, data: Bytes)
    requires CanMove(t, a, b) && a in t.content && |p| == 4 && p[2] == STAGING && |b| == 5 && b[2] == VERSIONS
    ensures CanMove(t.(content := t.content[p := data]), a, b)
  {}

  lemma StagedList(s: State, id: string, p: Path, data: Bytes)
    requires HistoryBacked(s.files, s.versions, s.tree) && id in s.files && |p| == 4
    ensures ListBacked(Staged(s, p, data).tree, s.files[id].key, id, History(s, id))
  {}

  /** The upload sets the old content aside as a version. */
  predicate Snapshots(env: Env, s: State, id: string, data: Bytes)
    requires id in s.files
  {
    env.versioningEnabled && s.files[id].sha != Sha256(data)
  }

  /** With the old content set aside, the staging file moves into its place. */
  lemma MovesIntoVacated(x: State, id: string, f: FileRow, p: Path, data: Bytes, now: int)
    requires Vacated(x, id, f.key) && |p| == 4 && p[2] == STAGING
    ensures var t := Staged(x, p, data).tree;
            && CanMove(t, p, At(f.key))
            && Moved(t, p, At(f.key)) == Place(x, id, Renewed(f, data, now), now).tree
  {
    StagingApart(x, p);
    ReadyIsOpen(x.tree, f.key);
    StagingMoves(x, f.key, p, data);
  }

  /** Otherwise it replaces the old content. */
  lemma MovesOntoOld(s: State, id: string, p: Path, data: Bytes, now: int)
    requires id in s.files && |p| == 4 && p[2] == STAGING && p !in s.tree.content
    requires UserPath(s.files[id].key.Full()) && RowBacked(s.tree, s.files[id]) && WellFormed(s.tree)
    ensures var t := Staged(s, p, data).tree;
            && CanMove(t, p, At(s.files[id].key))
            && Moved(t, p, At(s.files[id].key)) == Place(Drop(s, id), id, Renewed(s.files[id], data, now), now).tree
  {
    var k := s.files[id].key;
    ExistingOpen(s, id);
    StagingMoves(s, k, p, data);
    assert (s.tree.content - {At(k)})[At(k) := data] == s.tree.content[At(k) := data];
    assert s.tree.dirs + Prefixes(Parent(At(k))) == s.tree.dirs;
  }

  /** Everything an upload over file id relies on, with its staging file at p. */
  ghost predicate ReplaceReady(env: Env, s: State, id: string, p: Path, data: Bytes, now: int)
    requires id in s.files
  {
    var f, t, x := s.files[id], Staged(s, p, data), Snapshot(env, s, id, now);
    && UserPath(f.key.Full()) && RowBacked(t.tree, f)
    && ListBacked(t.tree, f.key, id, History(s, id)) && Ordered(History(s, id), f.updatedAt)
    && CanMove(t.tree, At(f.key), NewVersion(s, id).key)
    && Snapshot(env, t, id, now) == Staged(x, p, data)
    && CanMove(Staged(x, p, data).tree, p, At(f.key))
    && Moved(Staged(x, p, data).tree, p, At(f.key)) == Place(x, id, Renewed(f, data, now), now).tree
    && SameOutside(t.tree, Place(x, id, Renewed(f, data, now), now).tree, Touched(s, id) + {p})
    && (Kept(env, s, id, now) > 0 ==> Holds(Place(x, id, Renewed(f, data, now), now).tree, f.sha.of))
  }

  lemma SnapshotTouches(env: Env, s: State, id: string, now: int)
    requires id in s.files
    ensures SameOutside(s.tree, Snapshot(env, s, id, now).tree, Touched(s, id))
  {}

  lemma ReplaceIsReady(env: Env, s: State, id: string, p: Path, data: Bytes, now: int)
    requires Agreement(s) && id in s.files && |p| == 4 && p[2] == STAGING
    ensures ReplaceReady(env, s, id, p, data, now)
  {
    SnapshotReady(s, id, p, data);
    StagingApart(s, p);
    StagedSnapshot(env, s, id, now, p, data);
    SnapshotVacates(env, s, id, now);
    MovesIntoVacated(Snapshot(env, s, id, now), id, s.files[id], p, data, now);
    SnapshotTouches(env, s, id, now);
    if Kept(env, s, id, now) > 0 {
      KeptIsHeld(env, s, id, now, data);
    }
  }

  /** After an upload over it, a kept content is still in the version area. */
  lemma KeptIsHeld(env: Env, s: State, id: string, now: int, data: Bytes)
    requires Agreement(s) && id in s.files && Kept(env, s, id, now) > 0
    ensures Holds(Place(Snapshot(env, s, id, now), id, Renewed(s.files[id], data, now), now).tree, s.files[id].sha.of)
  {
    SnapshotVacates(env, s, id, now);
    UserPlace(s.files[id].key);
    var x := Snapshot(env, s, id, now);
    var v := NewVersion(s, id);
    assert x.versions[id][0] == v;
    assert ListBacked(x.tree, x.files[id].key, id, x.versions[id]);
    assert VersionBacked(x.tree, x.files[id].key, id, v);
    assert Place(x, id, Renewed(s.files[id], data, now), now).tree.content[v.key] == s.files[id].sha.of;
  }

  /** Everything an upload over file id without a new version relies on. */
  ghost predicate OverwriteReady(s: State, id: string, p: Path, data: Bytes, now: int)
    requires id in s.files
  {
    var t := Staged(s, p, data).tree;
    && CanMove(t, p, At(s.files[id].key))
    && Moved(t, p, At(s.files[id].key)) == Place(Drop(s, id), id, Renewed(s.files[id], data, now), now).tree
    && SameOutside(t, Moved(t, p, At(s.files[id].key)), Touched(s, id) + {p})
  }

  lemma OverwriteIsReady(s: State, id: string, p: Path, data: Bytes, now: int)
    requires Agreement(s) && id in s.files && |p| == 4 && p[2] == STAGING
    ensures OverwriteReady(s, id, p, data, now)
  {
    StagingApart(s, p);
    assert RowBacked(s.tree, s.files[id]);
    MovesOntoOld(s, id, p, data, now);
  }

  /** Everything an upload to a new place relies on, and what its failure leaves. */
  ghost predicate NewReady(s: State, k: Key, p: Path, data: Bytes) {
    var t := Staged(s, p, data).tree;
    && (CanMove(t, p, At(k)) <==> Open(s.tree, k))
    && (Open(s.tree, k) ==>
          Moved(t, p, At(k)) == Tree(s.tree.content[At(k) := data], s.tree.dirs + Prefixes(Parent(At(k)))))
    && (Blocked(t, Parent(At(k))) <==> Blocked(s.tree, Parent(At(k))))
    && t.content - {p} == s.tree.content
    && TreeSound(s.tree)
    && (At(k) in s.tree.dirs ==> AddDirs(s.tree, Parent(At(k))) == s.tree)
  }

  lemma NewIsReady(s: State, k: Key, p: Path, data: Bytes)
    requires TreeSound(s.tree) && |p| == 4 && !(p <= At(k)) && p !in s.tree.content
    ensures NewReady(s, k, p, data)
  {
    StagingBlocked(s, k, p, data);
    if Open(s.tree, k) {
      StagingMoves(s, k, p, data);
    }
    if At(k) in s.tree.dirs {
      ParentsThere(s.tree, At(k));
    }
  }

  lemma ParentsSound(t: Tree, k: Key)
    requires TreeSound(t) && UserPath(k.Full()) && !Blocked(t, Parent(At(k)))
    ensures TreeSound(AddDirs(t, Parent(At(k))))
  {
    UserPlace(k);
    AddDirsWellFormed(t, Parent(At(k)));
    forall q | q in Prefixes(Parent(At(k))) ensures DirShape(q) {
      assert q in Prefixes(At(k)) by { assert q == At(k)[..|q|]; }
    }
  }

  /** The folders of an upload: those of its staging file, then those of its place. */
  lemma FoldersInTwo(s: State, k: Key, stagingId: string)
    ensures var g := Grow(s, Prefixes(Parent(StagingAt(k.pool, k.owner, stagingId))));
            && Grow(s, UploadFolders(k, stagingId)) == Grow(g, Prefixes(Parent(At(k))))
            && (Open(g.tree, k) <==> Enterable(s.tree, k))
            && (Prefixes(Parent(At(k))) <= s.tree.dirs ==> g == Grow(s, UploadFolders(k, stagingId)))
  {
    var staging := Parent(StagingAt(k.pool, k.owner, stagingId));
    assert staging == [k.pool, k.owner, STAGING];
    assert At(k) in Prefixes(staging) <==> At(k) == staging by {
      assert staging[..3] == staging;
    }
    assert At(k)[2..] == k.Full() && staging[2..] == [STAGING] && At(k)[..2] == staging[..2];
    assert At(k) == At(k)[..2] + At(k)[2..] && staging == staging[..2] + staging[2..];
  }

  /** Every other file's content is on disk throughout. */
  ghost predicate OthersAlwaysHeld(files: map<string, FileRow>, k: Key, before: seq<Tree>, after: seq<Tree>) {
    && before <= after
    && forall j | j in files && files[j].key != k :: AlwaysHeld(files[j].sha.of, before, after)
  }

  /** No other file's place is touched. */
  lemma OthersUntouched(s: State, k: Key, xs: set<Path>, a: seq<Tree>, c: seq<Tree>)
    requires UserPaths(s.files, s.dirs) && RowsBacked(s.files, s.tree) && OnlyAt(s.tree, xs, a, c)
    requires forall q | q in xs :: q == At(k) || (|q| >= 3 && (q[2] == VERSIONS || q[2] == STAGING))
    ensures OthersAlwaysHeld(s.files, k, a, c)
  {}

  /** The places an upload under k may touch, its staging file aside. */
  ghost function Reach(s: State, k: Key): set<Path> {
    match FindFile(s.files, k)
    case None => {At(k)}
    case Some(id) => Touched(s, id)
  }

  /** The file whose content an upload of data under k sets aside and keeps. */
  ghost predicate SetAside(env: Env, s: State, k: Key, data: Bytes, now: int, id: string) {
    FindFile(s.files, k) == Some(id) && id in s.files && Snapshots(env, s, id, data) && Kept(env, s, id, now) > 0
  }

  /** What the upload of data under k can count on once its staging file is written. */
  ghost predicate StoreReady(env: Env, s: State, k: Key, data: Bytes, newId: string, stagingId: string, now: int) {
    var p := StagingAt(k.pool, k.owner, stagingId);
    var g := Grow(s, Prefixes(Parent(p)));
    && (Open(g.tree, k) <==> Enterable(s.tree, k))
    && match FindFile(s.files, k)
       case Some(id) =>
         && id in s.files && s.files[id].key == k && Enterable(s.tree, k)
         && (if Snapshots(env, g, id, data) then ReplaceReady(env, g, id, p, data, now)
             else OverwriteReady(g, id, p, data, now))
         && Stored(env, s, k, data, newId, stagingId, now)
            == Place(Displaced(env, g, id, data, now), id, Renewed(s.files[id], data, now), now)
       case None =>
         && NewReady(g, k, p, data)
         && Stored(env, s, k, data, newId, stagingId, now)
            == Place(Grow(g, Prefixes(Parent(At(k)))), newId, FileRow(k, |data|, Sha256(data), now, now, None), now)
  }

  lemma StoreIsReady(env: Env, s: State, k: Key, data: Bytes, newId: string, stagingId: string, now: int)
    requires Agreement(s) && FreshStaging(k, stagingId)
    ensures StoreReady(env, s, k, data, newId, stagingId, now)
  {
    var p := StagingAt(k.pool, k.owner, stagingId);
    var g := Grow(s, Prefixes(Parent(p)));
    UploadBegins(s, k, stagingId);
    FoldersInTwo(s, k, stagingId);
    match FindFile(s.files, k) {
      case Some(id) => StoreOverIsReady(env, s, id, stagingId, data, now);
      case None => NewIsReady(g, k, p, data);
    }
  }

  lemma StoreOverIsReady(env: Env, s: State, id: string, stagingId: string, data: Bytes, now: int)
    requires Agreement(s) && id in s.files
    ensures var k := s.files[id].key;
            var p := StagingAt(k.pool, k.owner, stagingId);
            var g := Grow(s, Prefixes(Parent(p)));
            && Enterable(s.tree, k) && Prefixes(Parent(At(k))) <= s.tree.dirs
            && (if Snapshots(env, g, id, data) then ReplaceReady(env, g, id, p, data, now)
                else OverwriteReady(g, id, p, data, now))
  {
    var k := s.files[id].key;
    var p := StagingAt(k.pool, k.owner, stagingId);
    var g := Grow(s, Prefixes(Parent(p)));
    UploadBegins(s, k, stagingId);
    assert RowBacked(s.tree, s.files[id]);
    ExistingOpen(s, id);
    if Snapshots(env, g, id, data) {
      ReplaceIsReady(env, g, id, p, data, now);
    } else {
      OverwriteIsReady(g, id, p, data, now);
    }
  }

  /** The disk during an upload, from before its staging file to its end. */
  lemma StoreTrace(s: State, k: Key, p: Path, xs: set<Path>, a: seq<Tree>, t1: Tree, c: seq<Tree>)
    requires UserPaths(s.files, s.dirs) && RowsBacked(s.files, s.tree)
    requires |p| == 4 && p[2] == STAGING
    requires SameOutside(s.tree, t1, {p}) && OnlyAt(t1, xs + {p}, a + [t1], c)
    requires forall q | q in xs :: q == At(k) || (|q| == 5 && q[2] == VERSIONS)
    ensures OthersAlwaysHeld(s.files, k, a, c)
  {
    OnlyAtChain(s.tree, t1, xs + {p}, a, a + [t1], c);
    OthersUntouched(s, k, xs + {p}, a, c);
  }

  lemma ReachPlaces(s: State, k: Key)
    requires HistoryBacked(s.files, s.versions, s.tree)
    ensures forall q | q in Reach(s, k) :: q == At(k) || (|q| == 5 && q[2] == VERSIONS)
  {}

  lemma StoreHeld(env: Env, s: State, k: Key, p: Path, data: Bytes, now: int, id: string, a: seq<Tree>, t1: Tree,
                  c: seq<Tree>)
    requires RowsBacked(s.files, s.tree) && SetAside(env, s, k, data, now, id)
    requires SameOutside(s.tree, t1, {p}) && p != At(k)
    requires AlwaysHeld(s.files[id].sha.of, a + [t1], c)
    ensures AlwaysHeld(s.files[id].sha.of, a, c)
  {}

  /** The disk during a whole upload whose stream was complete. */
  lemma StoreEnds(env: Env, s: State, k: Key, p: Path, data: Bytes, now: int, a: seq<Tree>, t1: Tree, c: seq<Tree>)
    requires UserPaths(s.files, s.dirs) && RowsBacked(s.files, s.tree) && |p| == 4 && p[2] == STAGING && p != At(k)
    requires t1 == Staged(Grow(s, Prefixes(Parent(p))), p, data).tree
    requires OnlyAt(t1, Reach(s, k) + {p}, a + [t1], c)
    requires forall q | q in Reach(s, k) :: q == At(k) || (|q| == 5 && q[2] == VERSIONS)
    requires forall id | SetAside(env, s, k, data, now, id) :: AlwaysHeld(s.files[id].sha.of, a + [t1], c)
    ensures OthersAlwaysHeld(s.files, k, a, c)
    ensures forall id | SetAside(env, s, k, data, now, id) :: AlwaysHeld(s.files[id].sha.of, a, c)
  {
    StoreTrace(s, k, p, Reach(s, k), a, t1, c);
    forall id | SetAside(env, s, k, data, now, id) ensures AlwaysHeld(s.files[id].sha.of, a, c) {
      StoreHeld(env, s, k, p, data, now, id, a, t1, c);
    }
  }

  /** And of one whose stream broke. */
  lemma StoreFails(s: State, k: Key, p: Path, a: seq<Tree>)
    requires UserPaths(s.files, s.dirs) && RowsBacked(s.files, s.tree) && |p| == 4 && p[2] == STAGING
    ensures OthersAlwaysHeld(s.files, k, a, a + [Grow(s, Prefixes(Parent(p))).tree])
  {
    var t1 := Grow(s, Prefixes(Parent(p))).tree;
    StoreTrace(s, k, p, {}, a, t1, a + [t1]);
  }

  /** A staging file can be written. */
  ghost predicate StagingFree(s: State, p: Path) {
    && |p| == 4 && p[2] == STAGING
    && !Blocked(s.tree, Parent(p)) && p !in s.tree.dirs + Prefixes(Parent(p)) && p !in s.tree.content
    && Rejected(s, Grow(s, Prefixes(Parent(p)))) && UserPaths(s.files, s.dirs) && RowsBacked(s.files, s.tree)
  }

  /** All an upload needs to know beforehand. */
  lemma StoreBegins(env: Env, s: State, k: Key, data: Bytes, newId: string, stagingId: string, now: int)
    requires Agreement(s) && FreshStaging(k, stagingId)
    ensures var p := StagingAt(k.pool, k.owner, stagingId);
            && StagingFree(s, p) && p != At(k)
            && (forall q | q in Reach(s, k) :: q == At(k) || (|q| == 5 && q[2] == VERSIONS))
    ensures StoreReady(env, s, k, data, newId, stagingId, now)
  {
    UploadBegins(s, k, stagingId);
    ReachPlaces(s, k);
    StoreIsReady(env, s, k, data, newId, stagingId, now);
  }

  /** What snapshotVersion needs when nothing is staged. */
  lemma SnapshotReadyAlone(s: State, id: string)
    requires Agreement(s) && id in s.files
    ensures UserPath(s.files[id].key.Full()) && RowBacked(s.tree, s.files[id])
    ensures ListBacked(s.tree, s.files[id].key, id, History(s, id))
    ensures Ordered(History(s, id), s.files[id].updatedAt)
    ensures CanMove(s.tree, At(s.files[id].key), NewVersion(s, id).key)
  {
    assert RowBacked(s.tree, s.files[id]);
    ReservedOpen(s, NewVersion(s, id).key);
  }

  // ----- restoring a version

  lemma IndexUnique(s: State, id: string, j: nat, upTo: int)
    requires j < |History(s, id)| && Ordered(History(s, id), upTo)
    ensures HasVersion(s, id, History(s, id)[j].num)
    ensures IndexOf(s, id, History(s, id)[j].num) == j
  {}

  /** The kept version moves into the emptied place and leaves the history. */
  lemma RestoreMoves(x: State, id: string, f: FileRow, j: nat, now: int)
    requires Vacated(x, id, f.key) && id in x.files && x.files[id] == f && j < |History(x, id)|
    ensures var v := History(x, id)[j];
            var done := Place(Take(x, id, j), id, Renewed(f, v.sha.of, now), now);
            && CanMove(x.tree, v.key, At(f.key)) && id in x.versions
            && Moved(x.tree, v.key, At(f.key)) == done.tree
            && x.versions[id := Without(x.versions[id], v.num)] == done.versions
            && v.size == |v.sha.of|
  {
    var vs := History(x, id);
    var v := vs[j];
    assert ListBacked(x.tree, f.key, id, vs);
    assert VersionBacked(x.tree, f.key, id, v);
    ReadyIsOpen(x.tree, f.key);
    WithoutAt(vs, j);
  }

  /** A version the snapshot pruned is nowhere on disk. */
  lemma PrunedIsGone(env: Env, s: State, id: string, j: nat, now: int)
    requires id in s.files && j < |History(s, id)| && Kept(env, s, id, now) <= j + 1
    ensures History(s, id)[j].key !in Snapshot(env, s, id, now).tree.content
  {}

  lemma VersionNoFolder(t: Tree, k: Key, id: string, vs: seq<VersionRow>, j: nat)
    requires ListBacked(t, k, id, vs) && j < |vs| && TreeSound(t)
    ensures !DirShape(vs[j].key)
  {}

  /** So it cannot be moved back. */
  lemma RestoreStuck(env: Env, s: State, id: string, j: nat, now: int)
    requires Agreement(s) && id in s.files && j < |History(s, id)|
    requires Kept(env, s, id, now) <= j + 1
    ensures IsStuck(Snapshot(env, s, id, now), s.files[id], History(s, id)[j])
  {
    var x := Snapshot(env, s, id, now);
    PrunedIsGone(env, s, id, j, now);
    VersionNoFolder(s.tree, s.files[id].key, id, History(s, id), j);
    SnapshotVacates(env, s, id, now);
    StuckIn(x, id, s.files[id], History(s, id)[j]);
  }

  lemma StuckIn(x: State, id: string, f: FileRow, v: VersionRow)
    requires Vacated(x, id, f.key) && v.key !in x.tree.content && !DirShape(v.key)
    ensures IsStuck(x, f, v)
  {
    ReadyIsOpen(x.tree, f.key);
  }

  /** How putting version v back into file f ends, from the state x left by making
      room: with the state done, or stuck. */
  ghost predicate PutsBack(x: State, id: string, f: FileRow, v: VersionRow, now: int, done: State) {
    && CanMove(x.tree, v.key, At(f.key))
    && done == x.(files := x.files[id := f.(size := v.size, sha := v.sha, updatedAt := now, deletedAt := None)],
                  versions := x.versions[id := Without(History(x, id), v.num)],
                  tree := Moved(x.tree, v.key, At(f.key)), clock := now)
  }

  ghost predicate IsStuck(x: State, f: FileRow, v: VersionRow) {
    && !CanMove(x.tree, v.key, At(f.key))
    && !Blocked(x.tree, Parent(At(f.key))) && AddDirs(x.tree, Parent(At(f.key))) == x.tree
  }

  lemma PlainReady(env: Env, s: State, id: string, j: nat, now: int)
    requires Agreement(s) && id in s.files && j < |History(s, id)| && !env.versioningEnabled
    ensures PutsBack(Drop(s, id), id, s.files[id], History(s, id)[j], now, BroughtBack(env, s, id, j, now))
  {
    DropVacates(s, id);
    MovesBack(Drop(s, id), id, s.files[id], j, now);
  }

  lemma MovesBack(x: State, id: string, f: FileRow, j: nat, now: int)
    requires Vacated(x, id, f.key) && id in x.files && x.files[id] == f && j < |History(x, id)|
    ensures var v := History(x, id)[j];
            PutsBack(x, id, f, v, now, Place(Take(x, id, j), id, Renewed(f, v.sha.of, now), now))
  {
    RestoreMoves(x, id, f, j, now);
  }

  /** A kept version is found one place further down after the snapshot. */
  lemma KeptShifts(env: Env, s: State, id: string, j: nat, now: int)
    requires id in s.files && j < |History(s, id)| && env.versioningEnabled && j + 1 < Kept(env, s, id, now)
    ensures var x, v := Snapshot(env, s, id, now), History(s, id)[j];
            && x.files == s.files && j + 1 < |History(x, id)| && History(x, id)[j + 1] == v
            && BroughtBack(env, s, id, j, now)
               == Place(Take(x, id, j + 1), id, Renewed(s.files[id], v.sha.of, now), now)
  {}

  lemma KeptReady(env: Env, s: State, id: string, j: nat, now: int)
    requires Agreement(s) && id in s.files && j < |History(s, id)| && env.versioningEnabled
    requires j + 1 < Kept(env, s, id, now)
    ensures PutsBack(Snapshot(env, s, id, now), id, s.files[id], History(s, id)[j], now,
                     BroughtBack(env, s, id, j, now))
  {
    var x := Snapshot(env, s, id, now);
    SnapshotVacates(env, s, id, now);
    KeptShifts(env, s, id, j, now);
    TakesBack(x, id, s.files[id], j + 1, History(s, id)[j], now, BroughtBack(env, s, id, j, now));
  }

  lemma TakesBack(x: State, id: string, f: FileRow, j: nat, v: VersionRow, now: int, done: State)
    requires Vacated(x, id, f.key) && id in x.files && x.files[id] == f && j < |History(x, id)|
             && History(x, id)[j] == v
    requires done == Place(Take(x, id, j), id, Renewed(f, v.sha.of, now), now)
    ensures PutsBack(x, id, f, v, now, done)
  {
    MovesBack(x, id, f, j, now);
  }

  /** The step RestoreVersion has to make, once the version is found at j. */
  lemma VersionFound(env: Env, s: State, requester: string, id: string, j: nat, num: nat, now: int)
    requires id in s.files && s.files[id].key.owner == requester
    requires HistoryOrdered(s.files, s.versions, s.clock)
    requires j < |History(s, id)| && History(s, id)[j].num == num
    ensures RestoreError(env, s, requester, id, num, now)
         == if env.versioningEnabled ==> j + 1 < Kept(env, s, id, now) then None else Some(MoveFailed)
    ensures (env.versioningEnabled ==> j + 1 < Kept(env, s, id, now)) ==>
              RestoreStep(env, s, requester, id, num, now, BroughtBack(env, s, id, j, now))
    ensures !(env.versioningEnabled ==> j + 1 < Kept(env, s, id, now)) ==>
              RestoreStep(env, s, requester, id, num, now, Snapshot(env, s, id, now))
  {
    IndexUnique(s, id, j, s.files[id].updatedAt);
  }

  // ----- moves

  /** How moving a file's content ends. */
  ghost predicate MoveReady(s: State, id: string, k': Key)
    requires id in s.files
  {
    var a, b := At(s.files[id].key), At(k');
    && (CanMove(s.tree, a, b) <==> Open(s.tree, k'))
    && (Open(s.tree, k') ==> Moved(s.tree, a, b) == FileMoved(s, id, k').tree)
    && (b in s.tree.dirs ==> AddDirs(s.tree, Parent(b)) == s.tree)
  }

  lemma MoveIsReady(s: State, id: string, k': Key)
    requires WellFormed(s.tree) && id in s.files && RowBacked(s.tree, s.files[id])
    requires k' != s.files[id].key
    ensures MoveReady(s, id, k')
  {
    if At(k') in s.tree.dirs {
      ParentsThere(s.tree, At(k'));
    }
  }

  /** What stands somewhere has its folders above it. */
  lemma ParentsThere(t: Tree, p: Path)
    requires WellFormed(t) && p != [] && (p in t.dirs || p in t.content)
    ensures AddDirs(t, Parent(p)) == t
  {
    forall q | q in Prefixes(Parent(p)) ensures q in t.dirs {
      assert q == p[..|q|];
      PrefixIsDir(t, p, |q|);
    }
  }

  /** How moving a folder ends, and how it is undone. */
  ghost predicate FolderReady(s: State, id: string, k': Key)
    requires id in s.dirs
  {
    var a, b := At(s.dirs[id].key), At(k');
    && TreeSound(s.tree)
    && (!Blocked(s.tree, Parent(b)) && !Reserved(k') ==> TreeSound(AddDirs(s.tree, Parent(b))))
    && (!Blocked(s.tree, Parent(b)) && !CanMove(s.tree, a, b) ==> AddDirs(s.tree, Parent(b)) == s.tree)
    && (CanMove(s.tree, a, b) ==>
          CanMove(Moved(s.tree, a, b), b, a) && Moved(Moved(s.tree, a, b), b, a) == AddDirs(s.tree, Parent(b)))
  }

  lemma FullAbove(k: Key, k': Key)
    requires !(k.Full() <= k'.Full())
    ensures !(At(k) <= At(k'))
  {
    assert k.Full() == At(k)[2..] && k'.Full() == At(k')[2..];
  }

  lemma FolderIsReady(s: State, id: string, k': Key)
    requires TreeSound(s.tree) && FoldersSound(s.dirs, s.tree) && id in s.dirs && s.dirs[id].deletedAt.None?
    requires Canonical(k'.Full()) && !(At(s.dirs[id].key) <= At(k'))
    ensures FolderReady(s, id, k')
  {
    var a, b := At(s.dirs[id].key), At(k');
    if !Blocked(s.tree, Parent(b)) && !Reserved(k') {
      ParentsSound(s.tree, k');
    }
    if !Blocked(s.tree, Parent(b)) && !CanMove(s.tree, a, b) {
      ParentsThere(s.tree, b);
    }
    if CanMove(s.tree, a, b) {
      MoveThereAndBack(s.tree, a, b);
    }
  }

  // ----- removing for good

  /** The versions of a file go one by one. */
  lemma EraseRound(t: Tree, k: Key, id: string, vs: seq<VersionRow>, i: nat, upTo: int)
    requires ListBacked(t, k, id, vs) && Ordered(vs, upTo) && i < |vs| && UserPath(k.Full())
    ensures var left := t.content - {At(k)} - KeysOf(vs[..i]);
            vs[i].key in left && left - {vs[i].key} == t.content - {At(k)} - KeysOf(vs[..i + 1])
  {
    UserPlace(k);
    assert VersionBacked(t, k, id, vs[i]);
    forall x | 0 <= x < i ensures vs[..i][x].key != vs[i].key {
      assert VersionBacked(t, k, id, vs[x]);
    }
    KeysExtend(vs, 0, i);
    assert vs[0..i] == vs[..i] && vs[0..i + 1] == vs[..i + 1];
  }

  lemma {:induction false} EraseAllAppend(s: State, ids: seq<string>, x: string)
    requires forall i | 0 <= i < |ids| :: ids[i] in s.files
    requires forall i, j | 0 <= i < j < |ids| :: ids[i] != ids[j]
    requires x in s.files && x !in ids
    ensures x in EraseAll(s, ids).files
    ensures EraseAll(s, ids + [x]) == Erase(EraseAll(s, ids), x)
    decreases |ids|
  {
    if ids == [] {
      assert ids + [x] == [x] && [x][1..] == [];
    } else {
      assert (ids + [x])[1..] == ids[1..] + [x];
      EraseLeaves(s, ids);
      EraseAllAppend(Erase(s, ids[0]), ids[1..], x);
    }
  }

  // ----- purge

  /** The state of the purge loop before round i: everything doomed up to i is gone. */
  function AfterPurge(s: State, ids: seq<string>, k: nat, i: nat): State
    requires k <= |ids| && i <= |ids|
    requires forall j | 0 <= j < |ids| :: ids[j] in s.files
    requires forall a, b | 0 <= a < b < |ids| :: ids[a] != ids[b]
  {
    if i <= k then s else EraseAll(s, ids[k..i])
  }

  lemma AfterPurgeNext(s: State, ids: seq<string>, k: nat, i: nat)
    requires k <= i < |ids|
    requires forall j | 0 <= j < |ids| :: ids[j] in s.files
    requires forall a, b | 0 <= a < b < |ids| :: ids[a] != ids[b]
    ensures ids[i] in AfterPurge(s, ids, k, i).files
    ensures AfterPurge(s, ids, k, i + 1) == Erase(AfterPurge(s, ids, k, i), ids[i])
  {
    assert ids[k..i + 1] == ids[k..i] + [ids[i]];
    EraseAllAppend(s, ids[k..i], ids[i]);
  }

  /** The file's vote in the purge loop, from the running total. */
  predicate PurgeVote(f: FileRow, cutoff: int, maxTotal: int, total: int) {
    (f.deletedAt.Some? && f.deletedAt.value < cutoff) || (maxTotal > 0 && total > maxTotal)
  }

  /** What removing a file for good relies on. */
  ghost predicate EraseReady(s: State, id: string) {
    && id in s.files && UserPath(s.files[id].key.Full()) && At(s.files[id].key) in s.tree.content
    && ListBacked(s.tree, s.files[id].key, id, History(s, id))
    && Ordered(History(s, id), s.files[id].updatedAt)
  }

  lemma EraseIsReady(s: State, id: string)
    requires Agreement(s) && id in s.files
    ensures EraseReady(s, id)
  {
    assert RowBacked(s.tree, s.files[id]);
  }

  /** What round i of the purge loop decides and does, k files staying. */
  ghost predicate PurgeRound(s: State, ids: seq<string>, cutoff: int, maxTotal: int, k: nat, i: nat)
    requires k <= |ids| && i < |ids|
    requires forall j | 0 <= j < |ids| :: ids[j] in s.files
    requires forall a, b | 0 <= a < b < |ids| :: ids[a] != ids[b]
  {
    var total := TrashSize(s.files, ids[..i]) + s.files[ids[i]].size;
    && TrashSize(s.files, ids[..i + 1]) == total
    && (PurgeVote(s.files[ids[i]], cutoff, maxTotal, total) <==> k <= i)
    && (k <= i ==>
          && EraseReady(AfterPurge(s, ids, k, i), ids[i])
          && AfterPurge(s, ids, k, i + 1) == Erase(AfterPurge(s, ids, k, i), ids[i]))
  }

  lemma PurgeVoteDecides(s: State, ids: seq<string>, cutoff: int, maxTotal: int, i: nat)
    requires TrashListing(s, ids) && i < |ids|
    ensures var total := TrashSize(s.files, ids[..i]) + s.files[ids[i]].size;
            && TrashSize(s.files, ids[..i + 1]) == total
            && (PurgeFrom(s.files, ids, cutoff, maxTotal, 0) <= i
                <==> PurgeVote(s.files[ids[i]], cutoff, maxTotal, total))
  {
    assert ids[..i + 1][..i] == ids[..i];
    PurgeCutsAPrefix(s, ids, cutoff, maxTotal, i);
  }

  lemma ErasedReady(s: State, gone: seq<string>, id: string)
    requires Agreement(s)
    requires forall i | 0 <= i < |gone| :: gone[i] in s.files
    requires forall i, j | 0 <= i < j < |gone| :: gone[i] != gone[j]
    requires id in EraseAll(s, gone).files
    ensures EraseReady(EraseAll(s, gone), id)
  {
    EraseAllKeeps(s, gone);
    EraseIsReady(EraseAll(s, gone), id);
  }

  lemma PurgeRoundGoes(s: State, ids: seq<string>, cutoff: int, maxTotal: int, k: nat, i: nat)
    requires TrashListing(s, ids) && k == PurgeFrom(s.files, ids, cutoff, maxTotal, 0) && i < |ids|
    requires k <= i ==> EraseReady(AfterPurge(s, ids, k, i), ids[i])
    ensures PurgeRound(s, ids, cutoff, maxTotal, k, i)
  {
    PurgeVoteDecides(s, ids, cutoff, maxTotal, i);
    if k <= i {
      AfterPurgeNext(s, ids, k, i);
    }
  }

  /** Up to round i, a listing is erased from its first doomed file on. */
  lemma PurgedSoFar(s: State, ids: seq<string>, k: nat, i: nat) returns (gone: seq<string>)
    requires TrashListing(s, ids) && k <= i < |ids|
    ensures forall j | 0 <= j < |gone| :: gone[j] in s.files
    ensures forall a, b | 0 <= a < b < |gone| :: gone[a] != gone[b]
    ensures EraseAll(s, gone) == AfterPurge(s, ids, k, i) && ids[i] in EraseAll(s, gone).files
  {
    gone := ids[k..i];
    AfterPurgeNext(s, ids, k, i);
  }

  /** Every round of the purge of this listing goes as it should. */
  ghost predicate PurgeReady(s: State, ids: seq<string>, cutoff: int, maxTotal: int) {
    && TrashListing(s, ids)
    && var k := PurgeFrom(s.files, ids, cutoff, maxTotal, 0);
       && (forall i | 0 <= i < |ids| :: PurgeRound(s, ids, cutoff, maxTotal, k, i))
       && AfterPurge(s, ids, k, |ids|) == EraseAll(s, Doomed(s, ids, cutoff, maxTotal))
       && |Doomed(s, ids, cutoff, maxTotal)| == |ids| - k
  }

  lemma PurgeIsReady(s: State, ids: seq<string>, cutoff: int, maxTotal: int)
    requires Agreement(s) && TrashListing(s, ids)
    ensures PurgeReady(s, ids, cutoff, maxTotal)
  {
    var k := PurgeFrom(s.files, ids, cutoff, maxTotal, 0);
    forall i | 0 <= i < |ids| ensures k <= i ==> EraseReady(AfterPurge(s, ids, k, i), ids[i]) {
      if k <= i {
        var gone := PurgedSoFar(s, ids, k, i);
        ErasedReady(s, gone, ids[i]);
      }
    }
    PurgeGoes(s, ids, cutoff, maxTotal);
  }

  lemma PurgeGoes(s: State, ids: seq<string>, cutoff: int, maxTotal: int)
    requires TrashListing(s, ids)
    requires var k := PurgeFrom(s.files, ids, cutoff, maxTotal, 0);
             forall i | 0 <= i < |ids| :: k <= i ==> EraseReady(AfterPurge(s, ids, k, i), ids[i])
    ensures PurgeReady(s, ids, cutoff, maxTotal)
  {
    var k := PurgeFrom(s.files, ids, cutoff, maxTotal, 0);
    assert ids[k..|ids|] == ids[k..];
    forall i | 0 <= i < |ids| ensures PurgeRound(s, ids, cutoff, maxTotal, k, i) {
      PurgeRoundGoes(s, ids, cutoff, maxTotal, k, i);
    }
  }
}
