/** Runs of account requests: how long a token lives, and who may still come in. */
module AccountRuns {
  import opened Prelude
  import opened Users
  import opened Accounts

  /** A run: the user table before each request and after the last one, and what each request reports. */
  datatype Run = Run(states: seq<Rows>, outcomes: seq<Outcome>)

  ghost predicate Takes(cfg: Config, before: Rows, op: AccountOp, after: Rows, outcome: Outcome) {
    after == After(cfg, before, op) && outcome == Apply(cfg, before, op).outcome
  }

  ghost predicate IsRun(cfg: Config, ops: seq<AccountOp>, run: Run) {
    && |run.states| == |ops| + 1 && |run.outcomes| == |ops|
    && forall i | 0 <= i < |ops| :: Takes(cfg, run.states[i], ops[i], run.states[i + 1], run.outcomes[i])
  }

  /** A request that hands out tokens of this user and version. */
  predicate Issues(outcome: Outcome, u: Id, version: int) {
    outcome == LoggedIn(u, version) || outcome == Refreshed(u, version)
  }

  // What a step means, whatever request it answers ------------------------------------------------

  /** Every row follows the outcome, and an issued token carries its user's new version. */
  ghost predicate StepLaw(before: Rows, after: Rows, outcome: Outcome) {
    && (forall u | u in before :: u in after && RowFollows(before[u], after[u], outcome, u))
    && (forall u | u in after && u !in before :: PendingReset(after[u]).None? && outcome == Registered(u))
    && (outcome.LoggedIn? || outcome.Refreshed? ==>
          outcome.user in before && outcome.user in after && Version(after[outcome.user]) == outcome.version)
  }

  ghost predicate RunLaw(run: Run) {
    && |run.states| == |run.outcomes| + 1
    && forall i | 0 <= i < |run.outcomes| :: LawAt(run, i)
  }

  ghost predicate LawAt(run: Run, i: nat)
    requires |run.states| == |run.outcomes| + 1 && i < |run.outcomes|
  {
    StepLaw(run.states[i], run.states[i + 1], run.outcomes[i])
  }

  lemma IssueLaw(cfg: Config, rows: Rows, op: AccountOp)
    requires Apply(cfg, rows, op).outcome.LoggedIn? || Apply(cfg, rows, op).outcome.Refreshed?
    ensures var outcome := Apply(cfg, rows, op).outcome;
      && outcome.user in rows && outcome.user in After(cfg, rows, op)
      && Version(After(cfg, rows, op)[outcome.user]) == outcome.version
      && (op.Login? <==> outcome.LoggedIn?)
      && (op.Login? || op == Refresh(Signed(Token(RefreshToken, outcome.user, outcome.version))))
  {
  }

  lemma NewRowsAreRegistered(cfg: Config, rows: Rows, op: AccountOp)
    ensures forall u | u in After(cfg, rows, op) && u !in rows ::
      && PendingReset(After(cfg, rows, op)[u]).None? && !After(cfg, rows, op)[u].superuser
      && Apply(cfg, rows, op).outcome == Registered(u)
  {
  }

  lemma RequestsObeyLaw(cfg: Config, rows: Rows, op: AccountOp)
    ensures StepLaw(rows, After(cfg, rows, op), Apply(cfg, rows, op).outcome)
  {
    forall u | u in rows
      ensures u in After(cfg, rows, op) && RowFollows(rows[u], After(cfg, rows, op)[u], Apply(cfg, rows, op).outcome, u)
    {
      EachWriterKeepsToItsKey(cfg, rows, op, u);
    }
    NewRowsAreRegistered(cfg, rows, op);
    var outcome := Apply(cfg, rows, op).outcome;
    if outcome.LoggedIn? || outcome.Refreshed? {
      IssueLaw(cfg, rows, op);
    }
  }

  lemma RunsObeyLaw(cfg: Config, ops: seq<AccountOp>, run: Run)
    requires IsRun(cfg, ops, run)
    ensures RunLaw(run)
  {
    forall i | 0 <= i < |ops|
      ensures LawAt(run, i)
    {
      RequestsObeyLaw(cfg, run.states[i], ops[i]);
    }
  }

  lemma {:induction false} EmailsStayUnique(cfg: Config, ops: seq<AccountOp>, run: Run, n: nat)
    requires IsRun(cfg, ops, run) && UniqueEmails(run.states[0]) && n <= |ops|
    ensures UniqueEmails(run.states[n])
  {
    if n > 0 {
      EmailsStayUnique(cfg, ops, run, n - 1);
      EmailsStillUnique(cfg, run.states[n - 1], ops[n - 1]);
    }
  }

  lemma EmailsStillUnique(cfg: Config, rows: Rows, op: AccountOp)
    requires UniqueEmails(rows)
    ensures UniqueEmails(After(cfg, rows, op))
  {
    EveryCommitKeepsRows(cfg, rows, op);
  }

  // Token versions -------------------------------------------------------------------------------

  /** How many of the outcomes i..j-1 advanced the user's version. */
  function BumpCount(outcomes: seq<Outcome>, i: nat, j: nat, u: Id): nat
    requires i <= j <= |outcomes|
  {
    if i == j then 0
    else BumpCount(outcomes, i, j - 1, u) + (if Bumps(outcomes[j - 1], u) then 1 else 0)
  }

  lemma {:induction false} VersionCountsBumps(run: Run, i: nat, j: nat, u: Id)
    requires RunLaw(run) && i <= j <= |run.outcomes| && u in run.states[i]
    ensures u in run.states[j]
    ensures Version(run.states[j][u]) == Version(run.states[i][u]) + BumpCount(run.outcomes, i, j, u)
    decreases j
  {
    if i < j {
      VersionCountsBumps(run, i, j - 1, u);
      assert LawAt(run, j - 1);
    }
  }

  /** A version never decreases: it counts the logins, revocations and bootstraps of its user. */
  lemma VersionsNeverDecrease(cfg: Config, ops: seq<AccountOp>, run: Run, i: nat, j: nat, u: Id)
    requires IsRun(cfg, ops, run) && i <= j <= |ops| && u in run.states[i]
    ensures u in run.states[j]
    ensures Version(run.states[j][u]) == Version(run.states[i][u]) + BumpCount(run.outcomes, i, j, u)
  {
    RunsObeyLaw(cfg, ops, run);
    VersionCountsBumps(run, i, j, u);
  }

  lemma IssuedIsCurrentIff(run: Run, k: nat, n: nat, u: Id, version: int)
    requires RunLaw(run) && k < n <= |run.outcomes| && Issues(run.outcomes[k], u, version)
    ensures u in run.states[n]
    ensures Version(run.states[n][u]) == version <==> BumpCount(run.outcomes, k + 1, n, u) == 0
    ensures version <= Version(run.states[n][u])
  {
    assert LawAt(run, k);
    VersionCountsBumps(run, k + 1, n, u);
  }

  /** An issued token's version is current exactly while no login, revocation or bootstrap of its user has happened. */
  lemma TokenIsCurrentIff(cfg: Config, ops: seq<AccountOp>, run: Run, k: nat, n: nat, u: Id, version: int)
    requires IsRun(cfg, ops, run) && k < n <= |ops| && Issues(run.outcomes[k], u, version)
    ensures u in run.states[n]
    ensures Version(run.states[n][u]) == version <==> BumpCount(run.outcomes, k + 1, n, u) == 0
  {
    RunsObeyLaw(cfg, ops, run);
    IssuedIsCurrentIff(run, k, n, u, version);
  }

  /** When an issued token still works: no bump since, an open account and an allowed status. */
  lemma TokenWorksIff(cfg: Config, ops: seq<AccountOp>, run: Run, k: nat, n: nat, u: Id, version: int)
    requires IsRun(cfg, ops, run) && k < n <= |ops| && Issues(run.outcomes[k], u, version)
    ensures u in run.states[n]
    ensures
      var now := run.states[n];
      var works := BumpCount(run.outcomes, k + 1, n, u) == 0 && now[u].life.Open? && StatusAllowed(cfg, now[u]);
      && (Authenticate(cfg, now, Signed(Token(AccessToken, u, version))) == LoggedIn(u, version) <==> works)
      && (RefreshStep(cfg, now, Signed(Token(RefreshToken, u, version))).outcome == Refreshed(u, version) <==> works)
  {
    TokenIsCurrentIff(cfg, ops, run, k, n, u, version);
  }

  /** A revocation is not held to the current version: any refresh token of an open account will do. */
  lemma RevokeWorksIff(rows: Rows, token: Token)
    requires token.kind.RefreshToken?
    ensures RevokeStep(rows, Signed(token)).outcome == Revoked(token.user) <==> IsOpenUser(rows, token.user)
    ensures IsOpenUser(rows, token.user) ==>
      Version(Latest(rows, RevokeStep(rows, Signed(token)).trail)[token.user]) == Version(rows[token.user]) + 1
  {
  }

  // Sessions --------------------------------------------------------------------------------------

  /** Tokens of this user and version were handed out before place n. */
  predicate IssuedBefore(outcomes: seq<Outcome>, n: nat, u: Id, version: int)
    requires n <= |outcomes|
  {
    exists k | 0 <= k < n :: Issues(outcomes[k], u, version)
  }

  /** Every refresh continues tokens handed out earlier in the run. */
  ghost predicate Genuine(outcomes: seq<Outcome>) {
    forall i | 0 <= i < |outcomes| && outcomes[i].Refreshed? ::
      IssuedBefore(outcomes, i, outcomes[i].user, outcomes[i].version)
  }

  /** Signatures are ideal: every signed token that is presented for a refresh was handed out earlier in the run. */
  ghost predicate PresentsOnlyIssued(ops: seq<AccountOp>, outcomes: seq<Outcome>)
    requires |outcomes| == |ops|
  {
    forall i | 0 <= i < |ops| && ops[i].Refresh? && ops[i].credential.Signed? ::
      IssuedBefore(outcomes, i, ops[i].credential.token.user, ops[i].credential.token.version)
  }

  /** If only genuine tokens are presented, every refresh continues an earlier issue. */
  lemma GenuineTokens(cfg: Config, ops: seq<AccountOp>, run: Run)
    requires IsRun(cfg, ops, run) && PresentsOnlyIssued(ops, run.outcomes)
    ensures Genuine(run.outcomes)
  {
    forall i | 0 <= i < |ops| && run.outcomes[i].Refreshed?
      ensures IssuedBefore(run.outcomes, i, run.outcomes[i].user, run.outcomes[i].version)
    {
      assert Takes(cfg, run.states[i], ops[i], run.states[i + 1], run.outcomes[i]);
      IssueLaw(cfg, run.states[i], ops[i]);
    }
  }

  /** A chain of refreshes, however long, starts at one login of the same user and version. */
  lemma {:induction false} SessionStartsAtLogin(outcomes: seq<Outcome>, n: nat, u: Id, version: int) returns (k: nat)
    requires Genuine(outcomes) && n <= |outcomes| && IssuedBefore(outcomes, n, u, version)
    ensures k < n && outcomes[k] == LoggedIn(u, version)
    decreases n
  {
    k :| 0 <= k < n && Issues(outcomes[k], u, version);
    if outcomes[k].Refreshed? {
      k := SessionStartsAtLogin(outcomes, k, u, version);
    }
  }

  /** Whoever is authenticated logged in, and no login, revocation or bootstrap of that user has happened since. */
  lemma AuthenticatedMeansLoggedIn(cfg: Config, ops: seq<AccountOp>, run: Run, n: nat, token: Token) returns (k: nat)
    requires IsRun(cfg, ops, run) && PresentsOnlyIssued(ops, run.outcomes)
    requires n <= |ops| && IssuedBefore(run.outcomes, n, token.user, token.version)
    requires Authenticate(cfg, run.states[n], Signed(token)).LoggedIn?
    ensures k < n && run.outcomes[k] == LoggedIn(token.user, token.version)
    ensures BumpCount(run.outcomes, k + 1, n, token.user) == 0
  {
    GenuineTokens(cfg, ops, run);
    k := SessionStartsAtLogin(run.outcomes, n, token.user, token.version);
    TokenIsCurrentIff(cfg, ops, run, k, n, token.user, token.version);
  }

  // Closed accounts --------------------------------------------------------------------------------

  lemma {:induction false} ClosedForever(run: Run, i: nat, j: nat, u: Id)
    requires RunLaw(run) && i <= j <= |run.outcomes| && u in run.states[i] && run.states[i][u].life.Closed?
    ensures u in run.states[j] && run.states[j][u].life.Closed? && run.states[j][u].email == run.states[i][u].email
    decreases j
  {
    if i < j {
      ClosedForever(run, i, j - 1, u);
      assert LawAt(run, j - 1);
    }
  }

  lemma DeletedCloses(cfg: Config, rows: Rows, op: AccountOp, u: Id)
    requires Apply(cfg, rows, op).outcome == Deleted(u)
    ensures u in After(cfg, rows, op) && After(cfg, rows, op)[u].life.Closed?
  {
  }

  /** A closed account's tokens fail, and its email can neither log in nor register again. */
  lemma ClosedIsOut(cfg: Config, rows: Rows, token: Token, password: string, id: Id)
    requires UniqueEmails(rows) && token.user in rows && rows[token.user].life.Closed?
    ensures Authenticate(cfg, rows, Signed(token)).Failed? && RefreshStep(cfg, rows, Signed(token)).outcome.Failed?
    ensures LoginStep(cfg, rows, rows[token.user].email, password).outcome.Failed?
    ensures RegisterStep(cfg, rows, id, rows[token.user].email, password).outcome.Failed?
  {
    assert HasEmail(rows, token.user, rows[token.user].email);
  }

  /** A deleted account stays out for good. */
  lemma DeletionIsFinal(cfg: Config, ops: seq<AccountOp>, run: Run, i: nat, j: nat, token: Token, password: string,
                        id: Id)
    requires IsRun(cfg, ops, run) && UniqueEmails(run.states[0])
    requires i < j <= |ops| && run.outcomes[i] == Deleted(token.user)
    ensures token.user in run.states[j]
    ensures
      var now := run.states[j];
      && Authenticate(cfg, now, Signed(token)).Failed? && RefreshStep(cfg, now, Signed(token)).outcome.Failed?
      && RegisterStep(cfg, now, id, now[token.user].email, password).outcome.Failed?
      && LoginStep(cfg, now, now[token.user].email, password).outcome.Failed?
  {
    assert Takes(cfg, run.states[i], ops[i], run.states[i + 1], run.outcomes[i]);
    DeletedCloses(cfg, run.states[i], ops[i], token.user);
    RunsObeyLaw(cfg, ops, run);
    ClosedForever(run, i + 1, j, token.user);
    EmailsStayUnique(cfg, ops, run, j);
    ClosedIsOut(cfg, run.states[j], token, password, id);
  }
}
