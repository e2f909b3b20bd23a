/** What the superuser bootstrap opens: company access in every state of the protocol. */
module SuperuserAccess {
  import opened Prelude
  import opened BootstrapRuns
  import opened Bootstrap
  import opened Authorization
  import Store

  /**
   * In every state of every run, a user of the protocol's user table is accepted for a company and a permission
   * exactly if the log names that user or the role test admits it.
   */
  lemma AccessIff(ws: seq<World>, ms: seq<Move>, n: nat, p: Store.Policy, db: Store.Db, u: Id, c: Id,
                  d: Store.Definition)
    requires IsRun(ws, ms) && n < |ws| && db.users == ws[n].tables.users
    requires Store.Inv(p, db) && d in p.catalogue && u in db.users
    ensures
      var log := ws[n].tables.log;
      Require(db, u, db.users[u].superuser, c, d).Done? <==>
        (|log| == 1 && log[0].target == u) || MayUse(db, u, c, d.id)
  {
    RequireIff(p, db, u, c, d);
    EveryStateSatisfiesInv(ws, ms, n);
    LogMatchesControl(ws, ms, n);
    assert u in Superusers(db.users) <==> db.users[u].superuser;
  }

  /** After a reported change the promoted user is accepted everywhere; everybody else exactly by role. */
  lemma ChangeOpensEverything(ws: seq<World>, ms: seq<Move>, n: nat, i: nat, u: Id, p: Store.Policy, db: Store.Db,
                              v: Id, c: Id, d: Store.Definition)
    requires IsRun(ws, ms) && n < |ws| && i < |ws[n].phases| && ws[n].phases[i] == Finished(Changed(u))
    requires db.users == ws[n].tables.users && Store.Inv(p, db) && d in p.catalogue && v in db.users
    ensures Require(db, v, db.users[v].superuser, c, d).Done? <==> v == u || MayUse(db, v, c, d.id)
  {
    ChangeIsRecorded(ws, ms, n, i, u);
    AccessIff(ws, ms, n, p, db, v, c, d);
  }

  /** Before it, nobody is accepted but by role. */
  lemma NobodyBeforeTheChange(ws: seq<World>, ms: seq<Move>, n: nat, p: Store.Policy, db: Store.Db, v: Id, c: Id,
                              d: Store.Definition)
    requires IsRun(ws, ms) && n < |ws| && ws[n].tables.log == []
    requires db.users == ws[n].tables.users && Store.Inv(p, db) && d in p.catalogue && v in db.users
    ensures Require(db, v, db.users[v].superuser, c, d).Done? <==> MayUse(db, v, c, d.id)
  {
    AccessIff(ws, ms, n, p, db, v, c, d);
  }
}
