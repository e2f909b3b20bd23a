/** Password resets over whole runs: whom a token serves, how often, and until when. */
module ResetRuns {
  import opened Prelude
  import opened Users
  import opened Accounts
  import opened AccountRuns

  // What single requests do to reset records -------------------------------------------------------

  /** An issue stores the drawn token until the request's time plus the expiry. */
  lemma IssueStores(cfg: Config, rows: Rows, op: AccountOp, u: Id, record: ResetRecord)
    requires Apply(cfg, rows, op).outcome == ResetIssued(u, record)
    ensures op.RequestReset? && record == ResetRecord(op.method_, op.token, op.now + cfg.resetExpiry)
    ensures !op.limited && (op.method_.MagicLink? ==> cfg.frontendUrl)
  {
  }

  lemma SpendNeedsRecord(rows: Rows, email: string, method_: ResetMethod, token: string, password: string, now: int)
    requires SpendReset(rows, email, method_, token, password, now).outcome.PasswordReset?
    ensures
      var outcome := SpendReset(rows, email, method_, token, password, now).outcome;
      && outcome == PasswordReset(outcome.user, method_, token, now) && HasEmail(rows, outcome.user, email)
      && ResetAllowed(rows[outcome.user], method_, token, now)
  {
  }

  /** A reset needs a matching, unexpired record of the same user and method. */
  lemma ResetNeedsRecord(cfg: Config, rows: Rows, op: AccountOp)
    requires Apply(cfg, rows, op).outcome.PasswordReset?
    ensures
      var o := Apply(cfg, rows, op).outcome;
      && o.user in rows && ResetAllowed(rows[o.user], o.method_, o.token, o.now)
      && (|| (op.OtpReset? && o.method_ == Otp && o.token == op.otp && o.now == op.now
              && rows[o.user].email == op.email)
          || (op.MagicReset? && o.method_ == MagicLink && o.token == op.token && o.now == op.now))
  {
    if op.OtpReset? {
      SpendNeedsRecord(rows, op.email, Otp, op.otp, op.password, op.now);
    } else {
      var holder := FirstHolder(rows, op.order, MagicLink, op.token);
      SpendNeedsRecord(rows, rows[holder.value].email, MagicLink, op.token, op.password, op.now);
    }
  }

  /** A one-time code works for a user exactly if it is that open account's unexpired record. */
  lemma OtpResetWorksIff(rows: Rows, email: string, otp: string, password: string, now: int, u: Id)
    requires UniqueEmails(rows)
    ensures OtpResetStep(rows, email, otp, password, now).outcome == PasswordReset(u, Otp, otp, now) <==>
      HasOpenEmail(rows, u, email) && ResetAllowed(rows[u], Otp, otp, now) && password != ""
  {
    var found := OpenAccount(rows, email);
    if found.Some? {
      OnlyAccountOf(rows, found.value);
    }
    if HasOpenEmail(rows, u, email) {
      OnlyAccountOf(rows, u);
    }
  }

  /** No two open accounts hold the same magic token. */
  ghost predicate OneHolderEach(rows: Rows) {
    forall u, v | u in rows && v in rows && PendingReset(rows[u]).Some? && PendingReset(rows[v]).Some? &&
                  PendingReset(rows[u]).value.token == PendingReset(rows[v]).value.token :: u == v
  }

  /** The scan finds the unique holder, in whatever order the rows come. */
  lemma ScanFindsTheHolder(rows: Rows, order: seq<Id>, method_: ResetMethod, token: string, u: Id)
    requires OneHolderEach(rows) && forall v | v in rows :: v in order
    ensures FirstHolder(rows, order, method_, token) == Some(u) <==> Holds(rows, u, method_, token)
  {
  }

  /** A magic token works for a user exactly if it is that open account's unexpired record. */
  lemma MagicResetWorksIff(rows: Rows, token: string, password: string, now: int, order: seq<Id>, u: Id)
    requires UniqueEmails(rows) && OneHolderEach(rows) && forall v | v in rows :: v in order
    ensures MagicResetStep(rows, token, password, now, order).outcome == PasswordReset(u, MagicLink, token, now) <==>
      IsOpenUser(rows, u) && ResetAllowed(rows[u], MagicLink, token, now) && password != ""
  {
    ScanFindsTheHolder(rows, order, MagicLink, token, u);
    var holder := FirstHolder(rows, order, MagicLink, token);
    if holder.Some? {
      OnlyAccountOf(rows, holder.value);
    }
  }

  // Runs ----------------------------------------------------------------------------------------------

  ghost predicate NothingPending(rows: Rows) {
    forall u | u in rows :: PendingReset(rows[u]).None?
  }

  /** Reset tokens are never drawn twice. */
  ghost predicate DistinctDraws(outcomes: seq<Outcome>) {
    forall i, j | 0 <= i < j < |outcomes| && outcomes[i].ResetIssued? && outcomes[j].ResetIssued? ::
      outcomes[i].record.token != outcomes[j].record.token
  }

  /** The outcome replaces or spends the user's reset record. */
  predicate TouchesReset(outcome: Outcome, u: Id) {
    || (outcome.ResetIssued? && outcome.user == u)
    || (outcome.PasswordReset? && outcome.user == u)
  }

  ghost predicate Untouched(outcomes: seq<Outcome>, i: nat, j: nat, u: Id)
    requires j <= |outcomes|
  {
    forall k | i <= k < j :: !TouchesReset(outcomes[k], u)
  }

  /** A pending record is the user's latest issue, and no reset has happened since. */
  lemma {:induction false} PendingIsLatestIssue(run: Run, n: nat, u: Id) returns (k: nat)
    requires RunLaw(run) && NothingPending(run.states[0])
    requires n <= |run.outcomes| && u in run.states[n] && PendingReset(run.states[n][u]).Some?
    ensures k < n && run.outcomes[k] == ResetIssued(u, PendingReset(run.states[n][u]).value)
    ensures Untouched(run.outcomes, k + 1, n, u)
    decreases n
  {
    assert n > 0;
    assert LawAt(run, n - 1);
    if TouchesReset(run.outcomes[n - 1], u) {
      k := n - 1;
    } else {
      k := PendingIsLatestIssue(run, n - 1, u);
    }
  }

  /** In every state of a run, a token is held by one user at most. */
  lemma TokensHaveOneHolder(run: Run, n: nat)
    requires RunLaw(run) && NothingPending(run.states[0]) && DistinctDraws(run.outcomes) && n <= |run.outcomes|
    ensures OneHolderEach(run.states[n])
  {
    var rows := run.states[n];
    forall u, v | u in rows && v in rows && PendingReset(rows[u]).Some? && PendingReset(rows[v]).Some? &&
                  PendingReset(rows[u]).value.token == PendingReset(rows[v]).value.token
      ensures u == v
    {
      var k := PendingIsLatestIssue(run, n, u);
      var j := PendingIsLatestIssue(run, n, v);
      assert k == j;
    }
  }

  /** The request that issued the token of a reset: same user and method, latest of its user, not yet expired. */
  lemma ResetFollowsIssue(cfg: Config, ops: seq<AccountOp>, run: Run, n: nat) returns (k: nat)
    requires IsRun(cfg, ops, run) && NothingPending(run.states[0])
    requires n < |ops| && run.outcomes[n].PasswordReset?
    ensures
      var o := run.outcomes[n];
      && k < n && ops[k].RequestReset? && run.outcomes[k].ResetIssued?
      && run.outcomes[k].user == o.user && run.outcomes[k].record.token == o.token
      && ops[k].method_ == o.method_ && ops[k].token == o.token && o.now < ops[k].now + cfg.resetExpiry
      && Untouched(run.outcomes, k + 1, n, o.user)
  {
    RunsObeyLaw(cfg, ops, run);
    assert Takes(cfg, run.states[n], ops[n], run.states[n + 1], run.outcomes[n]);
    ResetNeedsRecord(cfg, run.states[n], ops[n]);
    var u := run.outcomes[n].user;
    k := PendingIsLatestIssue(run, n, u);
    assert Takes(cfg, run.states[k], ops[k], run.states[k + 1], run.outcomes[k]);
    IssueStores(cfg, run.states[k], ops[k], u, run.outcomes[k].record);
  }

  lemma IssueNamesRow(cfg: Config, rows: Rows, op: AccountOp, u: Id, record: ResetRecord)
    requires Apply(cfg, rows, op).outcome == ResetIssued(u, record)
    ensures u in rows
  {
  }

  /** An issued record stays pending until it is replaced or spent. */
  lemma {:induction false} IssueStaysPending(run: Run, k: nat, n: nat, u: Id, record: ResetRecord)
    requires RunLaw(run) && k < n <= |run.outcomes| && u in run.states[k]
    requires run.outcomes[k] == ResetIssued(u, record) && Untouched(run.outcomes, k + 1, n, u)
    ensures u in run.states[n] && PendingReset(run.states[n][u]) == Some(record)
    decreases n
  {
    assert LawAt(run, n - 1);
    if k + 1 < n {
      IssueStaysPending(run, k, n - 1, u, record);
    }
  }

  /** The request uses a token of this method for u: a code with the account's email, a link with u among the rows. */
  ghost predicate Presents(op: AccountOp, rows: Rows, u: Id, method_: ResetMethod, token: string, password: string,
                           now: int)
    requires u in rows
  {
    match method_
    case Otp => op == OtpReset(rows[u].email, token, password, now)
    case MagicLink => op.MagicReset? && op == MagicReset(token, password, now, op.order) && u in op.order
  }

  /** A pending record that matches and has not expired is spent, and the new password stored. */
  lemma PresentedTokenResets(cfg: Config, rows: Rows, op: AccountOp, u: Id, record: ResetRecord, password: string,
                             now: int)
    requires UniqueEmails(rows) && OneHolderEach(rows) && u in rows && rows[u].life == Open
    requires PendingReset(rows[u]) == Some(record) && now < record.expires && password != ""
    requires Presents(op, rows, u, record.method_, record.token, password, now)
    ensures Apply(cfg, rows, op).outcome == PasswordReset(u, record.method_, record.token, now)
    ensures u in After(cfg, rows, op) && After(cfg, rows, op)[u].password == Hashed(password)
    ensures PendingReset(After(cfg, rows, op)[u]).None?
  {
    OnlyAccountOf(rows, u);
    if record.method_.MagicLink? {
      HolderIsFound(rows, op.order, record.token, u);
    }
  }

  lemma HolderIsFound(rows: Rows, order: seq<Id>, token: string, u: Id)
    requires OneHolderEach(rows) && u in order && Holds(rows, u, MagicLink, token)
    ensures FirstHolder(rows, order, MagicLink, token) == Some(u)
  {
  }

  /**
   * The converse of ResetFollowsIssue: an issued token works.  As long as the record is neither replaced nor spent,
   * the account is open and the expiry has not passed, presenting the token resets the password.
   */
  lemma IssuedTokenResets(cfg: Config, ops: seq<AccountOp>, run: Run, k: nat, n: nat, u: Id, password: string, now: int)
    requires IsRun(cfg, ops, run) && NothingPending(run.states[0]) && DistinctDraws(run.outcomes)
    requires UniqueEmails(run.states[0]) && k < n < |ops| && ops[k].RequestReset?
    requires run.outcomes[k].ResetIssued? && run.outcomes[k].user == u && Untouched(run.outcomes, k + 1, n, u)
    requires u in run.states[n] && run.states[n][u].life == Open
    requires Presents(ops[n], run.states[n], u, ops[k].method_, ops[k].token, password, now)
    requires password != "" && now < ops[k].now + cfg.resetExpiry
    ensures run.outcomes[n] == PasswordReset(u, ops[k].method_, ops[k].token, now)
    ensures u in run.states[n + 1] && run.states[n + 1][u].password == Hashed(password)
  {
    RunsObeyLaw(cfg, ops, run);
    assert Takes(cfg, run.states[k], ops[k], run.states[k + 1], run.outcomes[k]);
    IssueStores(cfg, run.states[k], ops[k], u, run.outcomes[k].record);
    IssueNamesRow(cfg, run.states[k], ops[k], u, run.outcomes[k].record);
    IssueStaysPending(run, k, n, u, run.outcomes[k].record);
    EmailsStayUnique(cfg, ops, run, n);
    TokensHaveOneHolder(run, n);
    assert Takes(cfg, run.states[n], ops[n], run.states[n + 1], run.outcomes[n]);
    PresentedTokenResets(cfg, run.states[n], ops[n], u, run.outcomes[k].record, password, now);
  }

  /** Two resets never use the same token. */
  lemma ResetTokenWorksOnce(cfg: Config, ops: seq<AccountOp>, run: Run, m: nat, n: nat)
    requires IsRun(cfg, ops, run) && NothingPending(run.states[0]) && DistinctDraws(run.outcomes)
    requires m < n < |ops| && run.outcomes[m].PasswordReset? && run.outcomes[n].PasswordReset?
    ensures run.outcomes[m].token != run.outcomes[n].token
  {
    var i := ResetFollowsIssue(cfg, ops, run, m);
    var j := ResetFollowsIssue(cfg, ops, run, n);
    if run.outcomes[m].token == run.outcomes[n].token {
      assert i == j;
      assert TouchesReset(run.outcomes[m], run.outcomes[n].user);
      assert false;
    }
  }

  /** A reset changes the password of the user the token was issued to, and of nobody else. */
  lemma ResetServesItsUser(cfg: Config, ops: seq<AccountOp>, run: Run, k: nat, n: nat, u: Id)
    requires IsRun(cfg, ops, run) && NothingPending(run.states[0]) && DistinctDraws(run.outcomes)
    requires k < |ops| && n < |ops| && run.outcomes[k].ResetIssued? && run.outcomes[n].PasswordReset?
    requires run.outcomes[k].record.token == run.outcomes[n].token
    ensures k < n && run.outcomes[k].user == run.outcomes[n].user
    ensures u in run.states[n] && u != run.outcomes[k].user ==>
      u in run.states[n + 1] && run.states[n + 1][u].password.text == run.states[n][u].password.text
  {
    var j := ResetFollowsIssue(cfg, ops, run, n);
    assert j == k;
    RunsObeyLaw(cfg, ops, run);
    assert LawAt(run, n);
  }

  // Round trips ------------------------------------------------------------------------------------------

  /** After a reset the new password logs in, if the status allows a login at all. */
  lemma ResetThenLogin(cfg: Config, rows: Rows, email: string, otp: string, password: string, now: int, u: Id)
    requires UniqueEmails(rows)
    requires OtpResetStep(rows, email, otp, password, now).outcome == PasswordReset(u, Otp, otp, now)
    ensures
      var after := Latest(rows, OtpResetStep(rows, email, otp, password, now).trail);
      var login := LoginStep(cfg, after, email, password).outcome;
      && u in rows
      && login == if StatusAllowed(cfg, rows[u]) then LoggedIn(u, Version(rows[u]) + 1) else Failed(Forbidden)
  {
    OtpResetWorksIff(rows, email, otp, password, now, u);
    OnlyAccountOf(rows, u);
    var after := Latest(rows, OtpResetStep(rows, email, otp, password, now).trail);
    SpendKeepsRows(rows, email, Otp, otp, password, now);
    assert after == rows[u := after[u]];
    assert UniqueEmails(after);
    OnlyAccountOf(after, u);
  }

  lemma RegisteredLogsIn(cfg: Config, rows: Rows, id: Id, email: string, password: string)
    requires UniqueEmails(rows) && HasOpenEmail(rows, id, email)
    requires rows[id].password == Hashed(password) && Version(rows[id]) == 0
    ensures LoginStep(cfg, rows, email, password).outcome ==
      if StatusAllowed(cfg, rows[id]) then LoggedIn(id, 1) else Failed(Forbidden)
  {
    OnlyAccountOf(rows, id);
  }

  lemma AwaitingIsVerified(cfg: Config, rows: Rows, id: Id, email: string)
    requires UniqueEmails(rows) && HasOpenEmail(rows, id, email) && Status(rows[id]) == Some(AWAITING_VERIFICATION)
    ensures VerifyStep(rows, email) == AccountStep([WithMeta(rows, id, STATUS_KEY, Text(ACTIVE))], Verified(id))
    ensures UniqueEmails(WithMeta(rows, id, STATUS_KEY, Text(ACTIVE)))
  {
    OnlyAccountOf(rows, id);
  }

  lemma RegisteredRow(cfg: Config, rows: Rows, id: Id, email: string, password: string)
    requires UniqueEmails(rows) && RegisterStep(cfg, rows, id, email, password).outcome == Registered(id)
    ensures
      var after := Latest(rows, RegisterStep(cfg, rows, id, email, password).trail);
      && UniqueEmails(after) && HasOpenEmail(after, id, email)
      && after[id] == User(email, Hashed(password), false, Open, map[STATUS_KEY := Text(FirstStatus(cfg))])
  {
    RegisterKeepsRows(cfg, rows, id, email, password);
  }

  /** A registered account logs in at once, or after verification where that is required. */
  lemma RegisterThenLogin(cfg: Config, rows: Rows, id: Id, email: string, password: string)
    requires UniqueEmails(rows) && RegisterStep(cfg, rows, id, email, password).outcome == Registered(id)
    ensures
      var after := Latest(rows, RegisterStep(cfg, rows, id, email, password).trail);
      && (!cfg.requireVerification ==> LoginStep(cfg, after, email, password).outcome == LoggedIn(id, 1))
      && (cfg.requireVerification ==>
            && LoginStep(cfg, after, email, password).outcome == Failed(Forbidden)
            && var verified := Latest(after, VerifyStep(after, email).trail);
            LoginStep(cfg, verified, email, password).outcome == LoggedIn(id, 1))
  {
    RegisteredRow(cfg, rows, id, email, password);
    var after := Latest(rows, RegisterStep(cfg, rows, id, email, password).trail);
    RegisteredLogsIn(cfg, after, id, email, password);
    if cfg.requireVerification {
      AwaitingIsVerified(cfg, after, id, email);
      RegisteredLogsIn(cfg, WithMeta(after, id, STATUS_KEY, Text(ACTIVE)), id, email, password);
    }
  }
}
