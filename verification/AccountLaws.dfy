/** How the account requests fit the role store and the superuser bootstrap. */
module AccountLaws {
  import Store
  import Service
  import Spec = Accounts
  import AccountRuns
  import UserRepository
  import BootstrapRuns

  /** Every commit of every account request keeps the invariant of the whole store. */
  lemma AccountCommitsKeepInv(p: Store.Policy, db: Store.Db, cfg: Spec.Config, op: Spec.AccountOp)
    requires Store.Inv(p, db)
    ensures Store.AllInv(p, UserRepository.OnDb(db, Spec.Apply(cfg, db.users, op).trail))
  {
    var trail := Spec.Apply(cfg, db.users, op).trail;
    Spec.EveryCommitKeepsRows(cfg, db.users, op);
    forall i | 0 <= i < |trail|
      ensures Store.Inv(p, db.(users := trail[i]))
    {
      Service.AccountsKeep(p, db, trail[i]);
      assert Service.ApplyAccounts(db, trail[i]) == Store.Commit(db.(users := trail[i]));
      assert Store.Commit(db.(users := trail[i])).trail[0] == db.(users := trail[i]);
    }
  }

  lemma OnlyPromoteMakesSuperusers(cfg: Spec.Config, rows: Spec.Rows, op: Spec.AccountOp)
    requires !op.Promote?
    ensures !Spec.Apply(cfg, rows, op).outcome.Promoted?
  {
  }

  /** To a bootstrap in progress every other account request is part of the environment. */
  lemma AccountRequestsAreEnvironment(cfg: Spec.Config, rows: Spec.Rows, op: Spec.AccountOp)
    requires !op.Promote?
    ensures BootstrapRuns.KeepsSuperusers(rows, Spec.After(cfg, rows, op))
  {
    var after := Spec.After(cfg, rows, op);
    OnlyPromoteMakesSuperusers(cfg, rows, op);
    AccountRuns.NewRowsAreRegistered(cfg, rows, op);
    forall u | u in rows
      ensures u in after && after[u].superuser == rows[u].superuser
    {
      Spec.EachWriterKeepsToItsKey(cfg, rows, op, u);
    }
  }
}
