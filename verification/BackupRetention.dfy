/** Retention of backups (internal/backup/manager.go, pruneOldBackups): each active
    policy names jobs to keep, and a job goes only when no active policy wants it. */
module BackupRetention {
  import opened BackupHistory

  /** Completed jobs at a destination, in the order of the table. */
  function CompletedAt(jobs: seq<Job>, root: string): (r: seq<Job>)
    ensures forall j :: j in r <==> j in jobs && j.status == Completed && j.root == root
  {
    if jobs == [] then []
    else (if jobs[0].status == Completed && jobs[0].root == root then [jobs[0]] else []) + CompletedAt(jobs[1..], root)
  }

  /** The table lists the latest start first. */
  ghost predicate NewestFirst(jobs: seq<Job>) {
    forall i, k | 0 <= i < k < |jobs| :: jobs[i].startedAt >= jobs[k].startedAt
  }

  /** One job's vote in the loop; a policy of 0 or less has no say. */
  predicate Pruned(j: Job, i: nat, count: int, days: int, cutoff: int) {
    (count > 0 ==> i >= count) && (days > 0 ==> j.startedAt <= cutoff)
  }

  /** How many of the latest jobs the count policy asks for. */
  function CountAsks(completed: seq<Job>, count: int): nat {
    if count <= 0 then 0 else if count < |completed| then count else |completed|
  }

  /** How many of the latest jobs are younger than the cutoff. */
  function AgeAsks(completed: seq<Job>, days: int, cutoff: int): (n: nat)
    ensures n <= |completed|
    ensures days > 0 ==> forall i | 0 <= i < n :: completed[i].startedAt > cutoff
    ensures days > 0 && n < |completed| ==> completed[n].startedAt <= cutoff
  {
    if days <= 0 || completed == [] || completed[0].startedAt <= cutoff then 0
    else 1 + AgeAsks(completed[1..], days, cutoff)
  }

  /** The larger of the two. */
  function KeepCount(completed: seq<Job>, count: int, days: int, cutoff: int): (n: nat)
    ensures n <= |completed|
  {
    var a, b := CountAsks(completed, count), AgeAsks(completed, days, cutoff);
    if a >= b then a else b
  }

  /** What stays is the newest-first prefix as long as the most generous active policy
      asks for. */
  lemma VotesKeepAPrefix(completed: seq<Job>, count: int, days: int, cutoff: int, i: nat)
    requires NewestFirst(completed) && i < |completed| && (count > 0 || days > 0)
    ensures Pruned(completed[i], i, count, days, cutoff) <==> KeepCount(completed, count, days, cutoff) <= i
  {}

  function Ids(jobs: seq<Job>): set<string> {
    set j | j in jobs :: j.id
  }

  lemma {:induction false} CompletedOrdered(jobs: seq<Job>, root: string)
    requires NewestFirst(jobs)
    ensures NewestFirst(CompletedAt(jobs, root))
  {
    if jobs != [] {
      CompletedOrdered(jobs[1..], root);
      forall k | k in CompletedAt(jobs[1..], root) ensures jobs[0].startedAt >= k.startedAt {
        var i :| 0 <= i < |jobs[1..]| && jobs[1..][i] == k;
        assert jobs[i + 1] == k;
      }
    }
  }

  lemma {:induction false} CompletedDistinct(jobs: seq<Job>, root: string)
    requires DistinctJobs(jobs)
    ensures DistinctJobs(CompletedAt(jobs, root))
  {
    if jobs != [] {
      CompletedDistinct(jobs[1..], root);
      forall k | k in CompletedAt(jobs[1..], root) ensures jobs[0].id != k.id {
        var i :| 0 <= i < |jobs[1..]| && jobs[1..][i] == k;
        assert jobs[i + 1] == k;
      }
    }
  }

  lemma {:induction false} CompletedKept(jobs: seq<Job>, root: string, gone: set<string>)
    ensures CompletedAt(Keep(jobs, gone), root) == Keep(CompletedAt(jobs, root), gone)
  {
    if jobs != [] {
      CompletedKept(jobs[1..], root, gone);
      var rest := Keep(jobs[1..], gone);
      if jobs[0].id !in gone {
        assert ([jobs[0]] + rest)[1..] == rest;
      } else {
        assert [] + rest == rest;
      }
      var c := CompletedAt(jobs[1..], root);
      if jobs[0].status == Completed && jobs[0].root == root {
        assert ([jobs[0]] + c)[1..] == c;
      } else {
        assert [] + c == c;
      }
    }
  }

  /** Taking the tail out of a table leaves its head. */
  lemma {:induction false} KeepHead(jobs: seq<Job>, n: nat)
    requires DistinctJobs(jobs) && n <= |jobs|
    ensures Keep(jobs, Ids(jobs[n..])) == jobs[..n]
  {
    if n == 0 {
      KeepNone(jobs, Ids(jobs[0..]));
    } else {
      assert jobs[1..][n - 1..] == jobs[n..];
      KeepHead(jobs[1..], n - 1);
      forall k | k in jobs[n..] ensures k.id != jobs[0].id {
        var i :| n <= i < |jobs| && jobs[i] == k;
      }
      assert jobs[0].id !in Ids(jobs[n..]);
      assert jobs[..n] == [jobs[0]] + jobs[1..][..n - 1];
    }
  }

  lemma {:induction false} KeepNone(jobs: seq<Job>, gone: set<string>)
    requires Ids(jobs) <= gone
    ensures Keep(jobs, gone) == []
  {
    if jobs != [] {
      assert jobs[0].id in Ids(jobs);
      forall x | x in Ids(jobs[1..]) ensures x in gone {
        assert x in Ids(jobs);
      }
      KeepNone(jobs[1..], gone);
    }
  }

  lemma {:induction false} KeepSorted(jobs: seq<Job>, gone: set<string>)
    requires NewestFirst(jobs)
    ensures NewestFirst(Keep(jobs, gone))
  {
    if jobs != [] {
      KeepSorted(jobs[1..], gone);
      forall k | k in Keep(jobs[1..], gone) ensures jobs[0].startedAt >= k.startedAt {
        var i :| 0 <= i < |jobs[1..]| && jobs[1..][i] == k;
        assert jobs[i + 1] == k;
      }
    }
  }
}
