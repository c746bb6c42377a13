/** Whole runs of the service: what holds after any number of calls, whatever
    their outcome (internal/storage/file_service.go). */
module Runs {
  import opened Base
  import opened PathStrings
  import opened PhysicalTree
  import opened StorageModel
  import opened Content
  import opened Uploads
  import opened Moves
  import opened Trash
  import opened Operations
  import opened Backing
  import opened VersionHistory

  datatype Call = Call(op: Op, now: int, err: Option<Error>)

  /** The states a sequence of calls goes through. */
  ghost predicate Run(env: Env, states: seq<State>, calls: seq<Call>) {
    && |states| == |calls| + 1
    && forall i | 0 <= i < |calls| :: Link(env, states[i], calls[i], states[i + 1])
  }

  ghost predicate Link(env: Env, s: State, c: Call, s': State) {
    Proper(s, c.op, c.now) && Step(env, s, c.op, c.now, s', c.err)
  }

  /** The first n calls of the run were harmless. */
  ghost predicate AllHarmless(env: Env, states: seq<State>, calls: seq<Call>, n: nat)
    requires n <= |calls| && n <= |states|
  {
    forall j | 0 <= j < n :: Harmless(env, states[j], calls[j].op, calls[j].err)
  }

  /** In every state that harmless calls lead to rows and disk agree. The first call that was
      not harmless ends that; and whatever the next call, every file and every version still
      has its content in its place afterwards, with nothing else on disk, if and only if it
      put nothing over a version with other content and did not fail to restore one. */
  lemma {:induction false} RunKeepsAgreement(env: Env, states: seq<State>, calls: seq<Call>, i: nat)
    requires Run(env, states, calls) && i < |states| && Agreement(states[0])
    requires AllHarmless(env, states, calls, i)
    ensures Agreement(states[i])
    ensures i < |calls| && !Harmless(env, states[i], calls[i].op, calls[i].err) ==> !Agreement(states[i + 1])
    ensures i < |calls| ==>
              (Backed(states[i + 1]) <==> KeepsContents(env, states[i], calls[i].op, calls[i].err))
  {
    if i > 0 {
      RunKeepsAgreement(env, states, calls, i - 1);
      var c := calls[i - 1];
      assert Link(env, states[i - 1], c, states[i]);
      StepKeepsAgreementIff(env, states[i - 1], c.op, c.now, states[i], c.err);
    }
    if i < |calls| {
      var c := calls[i];
      assert Link(env, states[i], c, states[i + 1]);
      StepKeepsAgreementIff(env, states[i], c.op, c.now, states[i + 1], c.err);
      StepKeepsContentsIff(env, states[i], c.op, c.now, states[i + 1], c.err);
    }
  }

  // ----- the limits on a history

  lemma EraseStaysLimited(env: Env, s: State, id: string)
    requires Limited(env, s) && id in s.files
    ensures Limited(env, Erase(s, id))
  {}

  lemma {:induction false} EraseAllStaysLimited(env: Env, s: State, ids: seq<string>)
    requires Limited(env, s)
    requires forall i | 0 <= i < |ids| :: ids[i] in s.files
    requires forall i, j | 0 <= i < j < |ids| :: ids[i] != ids[j]
    ensures Limited(env, EraseAll(s, ids))
    decreases |ids|
  {
    if ids != [] {
      EraseStaysLimited(env, s, ids[0]);
      EraseLeaves(s, ids);
      EraseAllStaysLimited(env, Erase(s, ids[0]), ids[1..]);
    }
  }

  lemma StepStaysLimited(env: Env, s: State, op: Op, now: int, s': State, err: Option<Error>)
    requires Limited(env, s) && Step(env, s, op, now, s', err)
    ensures Limited(env, s')
  {
    match op {
      case Upload(up, newId, stagingId) =>
        if err.None? {
          StoredIsLimited(env, s, UploadKey(env, up), up.source.data, newId, stagingId, now);
        }
      case RestoreVersion(requester, id, num) => RestoredIsLimited(env, s, requester, id, num, now, s');
      case Purge(ids, cutoff, maxTotal) => EraseAllStaysLimited(env, s, Doomed(s, ids, cutoff, maxTotal));
      case _ =>
    }
  }

  /** No call ever leaves a file with more versions, or more bytes of versions, than
      the limits allow. */
  lemma {:induction false} RunStaysLimited(env: Env, states: seq<State>, calls: seq<Call>, i: nat)
    requires Run(env, states, calls) && i < |states|
    requires Limited(env, states[0])
    ensures Limited(env, states[i])
  {
    if i > 0 {
      RunStaysLimited(env, states, calls, i - 1);
      var c := calls[i - 1];
      assert Link(env, states[i - 1], c, states[i]);
      StepStaysLimited(env, states[i - 1], c.op, c.now, states[i], c.err);
    }
  }

  // ----- the numbers of versions

  /** One more than the largest version number names a place no file is at, and a
      folder can be made for it. */
  lemma NextVersionIsFree(s: State, id: string)
    requires Agreement(s) && id in s.files
    ensures var v := NewVersion(s, id);
            && v.key !in s.tree.content && v.key !in s.tree.dirs && !Blocked(s.tree, Parent(v.key))
            && (forall i | 0 <= i < |History(s, id)| ::
                  History(s, id)[i].num < v.num && History(s, id)[i].createdAt <= v.createdAt)
  {
    var v := NewVersion(s, id);
    ReservedOpen(s, v.key);
    assert Ordered(History(s, id), s.files[id].updatedAt);
    NoUserPlace(s, v.key);
    if id in s.versions {
      NewVersionKeyUnused(s, id);
    }
  }

  lemma NewVersionKeyUnused(s: State, id: string)
    requires HistoryOrdered(s.files, s.versions, s.clock) && HistoryBacked(s.files, s.versions, s.tree)
    requires id in s.files
    ensures NewVersion(s, id).key !in KeysOf(History(s, id))
  {}

  lemma NoUserPlace(s: State, p: Path)
    requires UserPaths(s.files, s.dirs) && |p| >= 3 && p[2] == VERSIONS
    ensures forall j | j in s.files :: At(s.files[j].key) != p
  {}

  // ----- protection in the trash

  /** The calls that may concern a trashed file: those that name it, a purge that
      dooms it, a move of a folder above it. */
  ghost predicate Concerns(s: State, op: Op, id: string) {
    match op
    case RestoreVersion(_, i, _) => i == id
    case Delete(_, i) => i == id
    case PermanentlyDeleteFile(_, i) => i == id
    case RestoreFile(_, i) => i == id
    case MoveDirectory(_, d, _, _) => id in s.files && d in s.dirs && Inside(s.dirs[d].key, s.files[id].key)
    case Purge(ids, cutoff, maxTotal) => TrashListing(s, ids) && id in Doomed(s, ids, cutoff, maxTotal)
    case _ => false
  }

  predicate Trashed(s: State, id: string) {
    id in s.files && s.files[id].deletedAt.Some?
  }

  /** Row and history of the file are as they were. */
  predicate SameFile(s: State, s': State, id: string)
    requires id in s.files
  {
    id in s'.files && s'.files[id] == s.files[id] && History(s', id) == History(s, id)
  }

  lemma UploadSparesTrash(env: Env, s: State, up: UploadInput, newId: string, stagingId: string, now: int, id: string)
    requires Trashed(s, id) && newId !in s.files && UploadError(env, s, up).None?
    ensures SameFile(s, Uploaded(env, s, up, newId, stagingId, now), id)
  {}

  lemma {:induction false} EraseAllSpares(s: State, ids: seq<string>, id: string)
    requires id in s.files && id !in ids
    requires forall i | 0 <= i < |ids| :: ids[i] in s.files
    requires forall i, j | 0 <= i < j < |ids| :: ids[i] != ids[j]
    ensures SameFile(s, EraseAll(s, ids), id)
    decreases |ids|
  {
    if ids != [] {
      EraseLeaves(s, ids);
      EraseAllSpares(Erase(s, ids[0]), ids[1..], id);
    }
  }

  lemma RestoreSparesOthers(env: Env, s: State, requester: string, i: string, num: nat, now: int, s': State, id: string)
    requires id in s.files && i != id && RestoreStep(env, s, requester, i, num, now, s')
    ensures SameFile(s, s', id)
  {}

  lemma PurgeSpares(s: State, ids: seq<string>, cutoff: int, maxTotal: int, s': State, err: Option<Error>, id: string)
    requires id in s.files && PurgeStep(s, ids, cutoff, maxTotal, s', err) && id !in Doomed(s, ids, cutoff, maxTotal)
    ensures SameFile(s, s', id)
  {
    EraseAllSpares(s, Doomed(s, ids, cutoff, maxTotal), id);
  }

  lemma MoveSpares(s: State, requester: string, d: string, p: Option<string>, n: Option<string>, s': State,
                   err: Option<Error>, id: string)
    requires Trashed(s, id) && MoveDirectoryStep(s, requester, d, p, n, s', err)
    requires d in s.dirs ==> !Inside(s.dirs[d].key, s.files[id].key)
    ensures SameFile(s, s', id)
  {}

  lemma MoveFileSpares(s: State, requester: string, i: string, p: Option<string>, n: Option<string>, s': State,
                       err: Option<Error>, id: string)
    requires Trashed(s, id) && MoveFileStep(s, requester, i, p, n, s', err)
    ensures SameFile(s, s', id)
  {}

  /** A call that does not concern a trashed file leaves its row and history alone. */
  lemma StepSparesTrash(env: Env, s: State, op: Op, now: int, s': State, err: Option<Error>, id: string)
    requires Trashed(s, id) && !Concerns(s, op, id)
    requires Proper(s, op, now) && Step(env, s, op, now, s', err)
    ensures SameFile(s, s', id)
  {
    match op {
      case Upload(up, newId, stagingId) =>
        if err.None? {
          UploadSparesTrash(env, s, up, newId, stagingId, now, id);
        }
      case RestoreVersion(requester, i, num) => RestoreSparesOthers(env, s, requester, i, num, now, s', id);
      case MoveFile(requester, i, p, n) => MoveFileSpares(s, requester, i, p, n, s', err, id);
      case MoveDirectory(requester, d, p, n) => MoveSpares(s, requester, d, p, n, s', err, id);
      case Purge(ids, cutoff, maxTotal) => PurgeSpares(s, ids, cutoff, maxTotal, s', err, id);
      case _ =>
    }
  }

  /** A trashed file stays in the trash, with its content and its history on disk,
      for as long as no call concerns it. */
  lemma {:induction false} TrashIsProtected(env: Env, states: seq<State>, calls: seq<Call>, i: nat, id: string)
    requires Run(env, states, calls) && i < |states|
    requires Agreement(states[0]) && Trashed(states[0], id) && AllHarmless(env, states, calls, i)
    requires forall j | 0 <= j < i :: !Concerns(states[j], calls[j].op, id)
    ensures SameFile(states[0], states[i], id)
    ensures var p := At(states[0].files[id].key);
            && p in states[0].tree.content && p in states[i].tree.content
            && states[i].tree.content[p] == states[0].tree.content[p]
    ensures forall v | v in History(states[0], id) ::
              && v.key in states[0].tree.content && v.key in states[i].tree.content
              && states[i].tree.content[v.key] == states[0].tree.content[v.key]
  {
    TrashRowStays(env, states, calls, i, id);
    RunKeepsAgreement(env, states, calls, i);
    SameOnDisk(states[0], states[i], id);
  }

  lemma {:induction false} TrashRowStays(env: Env, states: seq<State>, calls: seq<Call>, i: nat, id: string)
    requires Run(env, states, calls) && i < |states| && Trashed(states[0], id)
    requires forall j | 0 <= j < i :: !Concerns(states[j], calls[j].op, id)
    ensures SameFile(states[0], states[i], id)
  {
    if i > 0 {
      TrashRowStays(env, states, calls, i - 1, id);
      var c := calls[i - 1];
      assert Link(env, states[i - 1], c, states[i]);
      StepSparesTrash(env, states[i - 1], c.op, c.now, states[i], c.err, id);
    }
  }

  lemma SameOnDisk(s: State, s': State, id: string)
    requires Agreement(s) && Agreement(s') && id in s.files && SameFile(s, s', id)
    ensures var p := At(s.files[id].key);
            p in s.tree.content && p in s'.tree.content && s'.tree.content[p] == s.tree.content[p]
    ensures forall v | v in History(s, id) ::
              v.key in s.tree.content && v.key in s'.tree.content && s'.tree.content[v.key] == s.tree.content[v.key]
  {
    assert RowBacked(s.tree, s.files[id]) && RowBacked(s'.tree, s'.files[id]);
    forall v | v in History(s, id)
      ensures v.key in s.tree.content && v.key in s'.tree.content && s'.tree.content[v.key] == s.tree.content[v.key]
    {
      assert ListBacked(s.tree, s.files[id].key, id, History(s, id));
      assert ListBacked(s'.tree, s'.files[id].key, id, History(s', id));
      var i :| 0 <= i < |History(s, id)| && History(s, id)[i] == v;
      assert VersionBacked(s.tree, s.files[id].key, id, v) && VersionBacked(s'.tree, s'.files[id].key, id, v);
    }
  }
}
