/** What becomes of old contents: the current content of a file together with its
    history, taken as a bag, over uploads and restored versions, and the limits on
    a history (internal/storage/file_service.go). */
module VersionHistory {
  import opened Base
  import opened StorageModel
  import opened VersionPruning
  import opened Content
  import opened Uploads

  // ----- a file's contents as a bag

  function Shas(vs: seq<VersionRow>): multiset<Digest> {
    if vs == [] then multiset{} else Shas(vs[..|vs| - 1]) + multiset{vs[|vs| - 1].sha}
  }

  /** The current content and every content in the history. */
  function Contents(s: State, id: string): multiset<Digest>
    requires id in s.files
  {
    multiset{s.files[id].sha} + Shas(History(s, id))
  }

  /** The contents a snapshot taken now lets go of. */
  ghost function Lost(env: Env, s: State, id: string, now: int): multiset<Digest>
    requires id in s.files
  {
    Shas(([NewVersion(s, id)] + History(s, id))[Kept(env, s, id, now)..])
  }

  lemma {:induction false} ShasJoin(a: seq<VersionRow>, b: seq<VersionRow>)
    ensures Shas(a + b) == Shas(a) + Shas(b)
    decreases |b|
  {
    if b == [] {
      assert a + b == a;
    } else {
      assert (a + b)[..|a + b| - 1] == a + b[..|b| - 1];
      ShasJoin(a, b[..|b| - 1]);
    }
  }

  lemma ShasOne(v: VersionRow)
    ensures Shas([v]) == multiset{v.sha}
  {}

  lemma ShasWithout(vs: seq<VersionRow>, j: nat)
    requires j < |vs|
    ensures Shas(vs[..j] + vs[j + 1..]) + multiset{vs[j].sha} == Shas(vs)
  {
    SplitAt(vs, j);
    ShasMiddle(vs[..j], vs[j], vs[j + 1..]);
  }

  lemma SplitAt<T>(xs: seq<T>, j: nat)
    requires j < |xs|
    ensures xs == xs[..j] + ([xs[j]] + xs[j + 1..])
  {}

  lemma ShasMiddle(a: seq<VersionRow>, v: VersionRow, b: seq<VersionRow>)
    ensures Shas(a + b) + multiset{v.sha} == Shas(a + ([v] + b))
  {
    ShasJoin(a, [v] + b);
    ShasJoin([v], b);
    ShasJoin(a, b);
    ShasOne(v);
    BagMiddle(Shas(a), multiset{v.sha}, Shas(b));
  }

  lemma BagMiddle<T>(a: multiset<T>, x: multiset<T>, b: multiset<T>)
    ensures a + (x + b) == a + b + x
  {}

  /** A snapshot puts the current content into the history and drops what is lost. */
  lemma SnapshotContents(env: Env, s: State, id: string, now: int)
    requires id in s.files
    ensures Shas(History(Snapshot(env, s, id, now), id)) + Lost(env, s, id, now) == Contents(s, id)
  {
    var all, n := [NewVersion(s, id)] + History(s, id), Kept(env, s, id, now);
    assert all == all[..n] + all[n..];
    ShasJoin(all[..n], all[n..]);
    ShasJoin([NewVersion(s, id)], History(s, id));
    ShasOne(NewVersion(s, id));
  }

  /** Taking a version out of the history and making it current: the bag of what
      was in the history. */
  lemma TakenContents(x: State, id: string, f: FileRow, j: nat, now: int)
    requires id in x.files && j < |History(x, id)|
    ensures var s' := Place(Take(x, id, j), id, Renewed(f, History(x, id)[j].sha.of, now), now);
            Contents(s', id) == Shas(History(x, id))
  {
    var vs := History(x, id);
    var s' := Place(Take(x, id, j), id, Renewed(f, vs[j].sha.of, now), now);
    assert History(s', id) == vs[..j] + vs[j + 1..];
    ShasWithout(vs, j);
  }

  /** The version restored from a snapshot is the one asked for, one place down. */
  lemma SnapshotShifts(env: Env, s: State, id: string, j: nat, now: int)
    requires id in s.files && j < |History(s, id)| && j + 1 < Kept(env, s, id, now)
    ensures History(Snapshot(env, s, id, now), id)[j + 1] == History(s, id)[j]
  {}

  lemma BroughtBackContents(env: Env, s: State, id: string, j: nat, now: int)
    requires id in s.files && j < |History(s, id)| && (env.versioningEnabled ==> j + 1 < Kept(env, s, id, now))
    ensures var s' := BroughtBack(env, s, id, j, now);
            Contents(s', id) == Shas(History(if env.versioningEnabled then Snapshot(env, s, id, now) else s, id))
  {
    if env.versioningEnabled {
      SnapshotShifts(env, s, id, j, now);
      TakenContents(Snapshot(env, s, id, now), id, s.files[id], j + 1, now);
    } else {
      TakenContents(Drop(s, id), id, s.files[id], j, now);
    }
  }

  /** Restoring a version with versioning on only permutes the file's contents, but
      for what the snapshot's limits let go of; with versioning off the current
      content is the only one lost. */
  lemma RestoreConservesContents(env: Env, s: State, id: string, num: nat, now: int)
    requires id in s.files && HasVersion(s, id, num) && Survives(env, s, id, num, now)
    ensures var s' := VersionRestored(env, s, id, num, now);
            && id in s'.files && s'.files[id].sha == History(s, id)[IndexOf(s, id, num)].sha
            && Contents(s', id) + (if env.versioningEnabled then Lost(env, s, id, now) else multiset{s.files[id].sha})
               == Contents(s, id)
  {
    BroughtBackContents(env, s, id, IndexOf(s, id, num), now);
    if env.versioningEnabled {
      SnapshotContents(env, s, id, now);
    }
  }

  lemma PlacedContents(x: State, id: string, row: FileRow, now: int)
    ensures Contents(Place(x, id, row, now), id) == Shas(History(x, id)) + multiset{row.sha}
  {}

  /** An upload over a file adds the new content; the old one goes to the history
      when it differs and versioning is on. */
  lemma UploadConservesContents(env: Env, s: State, k: Key, data: Bytes, newId: string, stagingId: string, now: int,
                                id: string)
    requires FindFile(s.files, k) == Some(id) && id in s.files
    ensures var s' := Stored(env, s, k, data, newId, stagingId, now);
            && id in s'.files && s'.files[id].sha == Sha256(data)
            && Contents(s', id) + (if env.versioningEnabled && s.files[id].sha != Sha256(data)
                                   then Lost(env, s, id, now) else multiset{s.files[id].sha})
               == Contents(s, id) + multiset{Sha256(data)}
  {
    var g := Grow(s, UploadFolders(k, stagingId));
    var x, row := Displaced(env, g, id, data, now), Renewed(s.files[id], data, now);
    PlacedContents(x, id, row, now);
    if env.versioningEnabled && s.files[id].sha != Sha256(data) {
      SnapshotContents(env, g, id, now);
      BagSwap(Shas(History(x, id)), Lost(env, g, id, now), Contents(g, id), row.sha);
    } else {
      BagSwap(Shas(History(x, id)), multiset{s.files[id].sha}, Contents(s, id), row.sha);
    }
  }

  lemma BagSwap<T>(kept: multiset<T>, lost: multiset<T>, all: multiset<T>, x: T)
    requires kept + lost == all
    ensures kept + multiset{x} + lost == all + multiset{x}
  {}

  /** Nothing is lost while the limits accept the longer history. */
  lemma NothingLostWithinLimits(env: Env, s: State, id: string, now: int)
    requires id in s.files
    ensures Lost(env, s, id, now) == multiset{} <==> WithinLimits(env, now, [NewVersion(s, id)] + History(s, id))
  {
    var all, n := [NewVersion(s, id)] + History(s, id), Kept(env, s, id, now);
    if n == |all| {
      assert all[..n] == all && all[n..] == [];
    } else {
      assert |all[n..]| > 0;
      assert WithinLimits(env, now, all) ==> false by {
        if WithinLimits(env, now, all) {
          assert all[..|all|] == all;
          LimitsOnPrefix(env, now, all, n + 1, |all|);
        }
      }
    }
  }

  // ----- the limits on count and bytes, for good

  /** The limits on count and total bytes, which time cannot break. */
  predicate WithinSizes(env: Env, vs: seq<VersionRow>) {
    && (env.maxVersions > 0 ==> |vs| <= env.maxVersions)
    && (env.maxBytes > 0 ==> TotalSize(vs) <= env.maxBytes)
  }

  predicate Limited(env: Env, s: State) {
    forall id | id in s.versions :: WithinSizes(env, s.versions[id])
  }

  lemma {:induction false} TotalSizeJoin(a: seq<VersionRow>, b: seq<VersionRow>)
    ensures TotalSize(a + b) == TotalSize(a) + TotalSize(b)
    decreases |b|
  {
    if b == [] {
      assert a + b == a;
    } else {
      assert (a + b)[..|a + b| - 1] == a + b[..|b| - 1];
      TotalSizeJoin(a, b[..|b| - 1]);
    }
  }

  lemma TakeStaysLimited(env: Env, s: State, id: string, j: nat)
    requires Limited(env, s) && id in s.files && j < |History(s, id)|
    ensures Limited(env, Take(s, id, j))
  {
    var vs := History(s, id);
    assert vs == vs[..j] + [vs[j]] + vs[j + 1..];
    TotalSizeJoin(vs[..j] + [vs[j]], vs[j + 1..]);
    TotalSizeJoin(vs[..j], [vs[j]]);
    TotalSizeJoin(vs[..j], vs[j + 1..]);
  }

  lemma SnapshotIsLimited(env: Env, s: State, id: string, now: int)
    requires Limited(env, s) && id in s.files
    ensures Limited(env, Snapshot(env, s, id, now))
  {}

  lemma StoredIsLimited(env: Env, s: State, k: Key, data: Bytes, newId: string, stagingId: string, now: int)
    requires Limited(env, s)
    ensures Limited(env, Stored(env, s, k, data, newId, stagingId, now))
  {
    var g := Grow(s, UploadFolders(k, stagingId));
    match FindFile(s.files, k)
    case None =>
    case Some(id) => SnapshotIsLimited(env, g, id, now);
  }

  lemma RestoredIsLimited(env: Env, s: State, requester: string, id: string, num: nat, now: int, s': State)
    requires Limited(env, s) && RestoreStep(env, s, requester, id, num, now, s')
    ensures Limited(env, s')
  {
    if id in s.files {
      SnapshotIsLimited(env, s, id, now);
      if RestoreError(env, s, requester, id, num, now).None? {
        var j := IndexOf(s, id, num);
        if env.versioningEnabled {
          TakeStaysLimited(env, Snapshot(env, s, id, now), id, j + 1);
        } else {
          TakeStaysLimited(env, Drop(s, id), id, j);
        }
      }
    }
  }
}
