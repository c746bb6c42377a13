/** The version limits of FileService: how many versions, how old, how many bytes
    (internal/storage/file_service.go, enforceMaxVersions). */
module VersionPruning {
  import opened StorageModel

  const DAY: int := 86400

  function TotalSize(vs: seq<VersionRow>): nat {
    if vs == [] then 0 else TotalSize(vs[..|vs| - 1]) + vs[|vs| - 1].size
  }

  function Cutoff(env: Env, now: int): int {
    now - env.maxAgeDays * DAY
  }

  /** Every active limit accepts this history; a limit of 0 or less is off. */
  ghost predicate WithinLimits(env: Env, now: int, vs: seq<VersionRow>) {
    && (env.maxVersions > 0 ==> |vs| <= env.maxVersions)
    && (env.maxAgeDays > 0 ==> forall i | 0 <= i < |vs| :: vs[i].createdAt >= Cutoff(env, now))
    && (env.maxBytes > 0 ==> TotalSize(vs) <= env.maxBytes)
  }

  /** The length of the longest newest-first prefix within the limits. */
  ghost function KeepLen(env: Env, now: int, vs: seq<VersionRow>): (k: nat)
    ensures k <= |vs| && WithinLimits(env, now, vs[..k])
    ensures k < |vs| ==> !WithinLimits(env, now, vs[..k + 1])
  {
    KeepFrom(env, now, vs, 0)
  }

  ghost function KeepFrom(env: Env, now: int, vs: seq<VersionRow>, i: nat): (k: nat)
    requires i <= |vs| && WithinLimits(env, now, vs[..i])
    ensures i <= k <= |vs| && WithinLimits(env, now, vs[..k])
    ensures k < |vs| ==> !WithinLimits(env, now, vs[..k + 1])
    decreases |vs| - i
  {
    if i < |vs| && WithinLimits(env, now, vs[..i + 1]) then KeepFrom(env, now, vs, i + 1) else i
  }

  /** One version's vote in the loop of enforceMaxVersions. */
  predicate Prune(env: Env, now: int, vs: seq<VersionRow>, i: nat)
    requires i < |vs|
  {
    || (env.maxVersions > 0 && i >= env.maxVersions)
    || (env.maxAgeDays > 0 && vs[i].createdAt < Cutoff(env, now))
    || (env.maxBytes > 0 && TotalSize(vs[..i + 1]) > env.maxBytes)
  }

  lemma TotalSizeGrows(vs: seq<VersionRow>, i: nat)
    requires i < |vs|
    ensures TotalSize(vs[..i + 1]) == TotalSize(vs[..i]) + vs[i].size
  {
    assert vs[..i + 1][..i] == vs[..i];
  }

  lemma {:induction false} TotalSizeMonotone(vs: seq<VersionRow>, i: nat, j: nat)
    requires i <= j <= |vs|
    ensures TotalSize(vs[..i]) <= TotalSize(vs[..j])
    decreases j - i
  {
    if i < j {
      TotalSizeGrows(vs, i);
      TotalSizeMonotone(vs, i + 1, j);
    }
  }

  lemma LimitsOnPrefix(env: Env, now: int, vs: seq<VersionRow>, i: nat, j: nat)
    requires i <= j <= |vs| && WithinLimits(env, now, vs[..j])
    ensures WithinLimits(env, now, vs[..i])
  {
    TotalSizeMonotone(vs, i, j);
    assert forall x | 0 <= x < i :: vs[..i][x] == vs[..j][x];
  }

  /** In an ordered history, a version is voted out exactly when the history up to
      it breaks a limit: the kept ones are the longest prefix within the limits. */
  lemma VotesCutAPrefix(env: Env, now: int, vs: seq<VersionRow>, i: nat, upTo: int)
    requires Ordered(vs, upTo)
    requires i < |vs|
    ensures Prune(env, now, vs, i) <==> KeepLen(env, now, vs) <= i
  {
    var k := KeepLen(env, now, vs);
    var p := vs[..i + 1];
    assert Prune(env, now, vs, i) <==> !WithinLimits(env, now, p) by {
      assert p[i] == vs[i];
      assert forall x | 0 <= x <= i :: p[x].createdAt >= vs[i].createdAt;
    }
    if k <= i {
      if WithinLimits(env, now, p) {
        LimitsOnPrefix(env, now, vs, k + 1, i + 1);
      }
    } else {
      LimitsOnPrefix(env, now, vs, i + 1, k);
    }
  }

  /** Removing one version by its number, as DeleteVersion does by id. */
  function Without(vs: seq<VersionRow>, num: nat): seq<VersionRow> {
    if vs == [] then []
    else if vs[0].num == num then Without(vs[1..], num)
    else [vs[0]] + Without(vs[1..], num)
  }

  lemma {:induction false} WithoutAbsent(vs: seq<VersionRow>, num: nat)
    requires forall i | 0 <= i < |vs| :: vs[i].num != num
    ensures Without(vs, num) == vs
  {
    if vs != [] {
      WithoutAbsent(vs[1..], num);
    }
  }

  /** Numbers are distinct, so exactly the j-th version goes. */
  lemma {:induction false} WithoutAt(vs: seq<VersionRow>, j: nat)
    requires j < |vs|
    requires forall i | 0 <= i < |vs| && i != j :: vs[i].num != vs[j].num
    ensures Without(vs, vs[j].num) == vs[..j] + vs[j + 1..]
  {
    if j == 0 {
      WithoutAbsent(vs[1..], vs[0].num);
    } else {
      WithoutAt(vs[1..], j - 1);
      assert vs[..j] == [vs[0]] + vs[1..][..j - 1];
      assert vs[1..][j..] == vs[j + 1..];
    }
  }

  lemma KeysExtend(vs: seq<VersionRow>, k: nat, i: nat)
    requires k <= i < |vs|
    ensures KeysOf(vs[k..i + 1]) == KeysOf(vs[k..i]) + {vs[i].key}
  {
    assert vs[k..i + 1] == vs[k..i] + [vs[i]];
    assert forall x | 0 <= x < i - k :: vs[k..i + 1][x] == vs[k..i][x];
    assert vs[k..i + 1][i - k] == vs[i];
  }

  lemma OrderedPrefix(vs: seq<VersionRow>, k: nat, upTo: int)
    requires Ordered(vs, upTo) && k <= |vs|
    ensures Ordered(vs[..k], upTo)
  {}

  lemma OrderedWithout(vs: seq<VersionRow>, j: nat, upTo: int)
    requires Ordered(vs, upTo) && j < |vs|
    ensures Ordered(vs[..j] + vs[j + 1..], upTo)
  {}
}
