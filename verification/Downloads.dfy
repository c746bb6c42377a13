/** The download counter of a public link under any interleaving of clients
    (internal/storage/file_service_sharing.go, share_sql_repository.go): each reads the
    share first, perhaps long before it counts its download. */
module Downloads {
  import opened Base
  import opened Shares

  /** IncrementDownloadCount: one conditional update. */
  predicate Countable(sh: Share) {
    sh.maxDownloads.None? || sh.downloadCount < sh.maxDownloads.value
  }

  function Counted(sh: Share): Share {
    if Countable(sh) then sh.(downloadCount := sh.downloadCount + 1) else sh
  }

  /** The link, the clients that found it usable and have not counted yet, and how many
      downloads were served and how many refused at the counter. */
  datatype World = World(share: Share, waiting: set<nat>, served: nat, refused: nat)

  datatype Action = Resolve(client: nat, now: int) | Count(client: nat) | Revoke(now: int)

  function Act(w: World, a: Action): World {
    match a
    case Resolve(c, now) =>
      if CheckLifecycle(w.share, now).None? && w.share.canDownload then w.(waiting := w.waiting + {c}) else w
    case Count(c) =>
      if c !in w.waiting then w
      else if Countable(w.share) then
        w.(share := Counted(w.share), waiting := w.waiting - {c}, served := w.served + 1)
      else w.(waiting := w.waiting - {c}, refused := w.refused + 1)
    case Revoke(now) =>
      if w.share.revokedAt.None? then w.(share := w.share.(revokedAt := Some(now))) else w
  }

  function After(w: World, actions: seq<Action>): World {
    if actions == [] then w else Act(After(w, actions[..|actions| - 1]), actions[|actions| - 1])
  }

  predicate Fresh(w: World) {
    w.served == 0 && w.refused == 0 && w.waiting == {} && w.share.downloadCount == 0
  }

  /** Whatever the interleaving, every served download was counted, and with a limit
      exactly as many clients are served as the limit has room for. */
  lemma {:induction false} ServedWithinLimit(w: World, actions: seq<Action>)
    requires Fresh(w)
    ensures var z := After(w, actions);
            && z.share.maxDownloads == w.share.maxDownloads
            && z.served == z.share.downloadCount
            && (w.share.maxDownloads.None? ==> z.refused == 0)
            && (w.share.maxDownloads.Some? ==>
                  var m, tries := w.share.maxDownloads.value, z.served + z.refused;
                  z.served == if tries <= m then tries else m)
    decreases |actions|
  {
    if actions != [] {
      ServedWithinLimit(w, actions[..|actions| - 1]);
    }
  }

  /** Once revoked, a link serves at most the clients that had read it before. */
  lemma {:induction false} RevokedServesOnlyWaiting(w: World, actions: seq<Action>)
    requires w.share.revokedAt.Some?
    ensures var z := After(w, actions);
            && z.share.revokedAt == w.share.revokedAt
            && z.waiting <= w.waiting
            && z.served + z.refused + |z.waiting| == w.served + w.refused + |w.waiting|
    decreases |actions|
  {
    if actions != [] {
      RevokedServesOnlyWaiting(w, actions[..|actions| - 1]);
    }
  }

  /** And such a client is still served: revoking does not reach it. */
  lemma RevocationComesTooLate(sh: Share, now: int)
    requires CheckLifecycle(sh, now).None? && sh.canDownload
    ensures After(World(sh, {}, 0, 0), [Resolve(0, now), Revoke(now), Count(0)]).served == 1
  {
    var a, b, c := Resolve(0, now), Revoke(now), Count(0);
    assert [a, b, c][..2] == [a, b] && [a, b][..1] == [a] && [a][..0] == [];
    assert After(World(sh, {}, 0, 0), [a]) == World(sh, {0}, 0, 0);
    assert After(World(sh, {}, 0, 0), [a, b]).waiting == {0};
  }
}
