/** What the account requests answer, row by row: which statuses, which records, which reasons. */
module AccountOutcomes {
  import opened Prelude
  import opened Users
  import opened Accounts
  import opened AccountRuns

  predicate HasStatus(row: User, status: string) {
    "status" in row.meta && row.meta["status"] == Text(status)
  }

  /** An active account, or one that awaits a verification nobody asks for. */
  predicate MayEnter(cfg: Config, row: User) {
    HasStatus(row, "Active") || (!cfg.requireVerification && HasStatus(row, "Awaiting Verification"))
  }

  predicate IsOpenAccount(rows: Rows, u: Id, email: string) {
    u in rows && rows[u].life == Open && rows[u].email == email
  }

  lemma StatusIs(cfg: Config, row: User)
    ensures StatusAllowed(cfg, row) <==> MayEnter(cfg, row)
  {
  }

  lemma FoundIs(rows: Rows, u: Id, email: string)
    requires UniqueEmails(rows) && IsOpenAccount(rows, u, email)
    ensures OpenAccount(rows, email) == Some(u) && AnyAccount(rows, email) == Some(u)
  {
    OnlyAccountOf(rows, u);
  }

  lemma FoundIsOpen(rows: Rows, email: string)
    ensures OpenAccount(rows, email).Some? ==> IsOpenAccount(rows, OpenAccount(rows, email).value, email)
  {
  }

  lemma NothingFound(rows: Rows, email: string)
    requires forall v :: !IsOpenAccount(rows, v, email)
    ensures OpenAccount(rows, email) == None
  {
    FoundIsOpen(rows, email);
  }

  // Coming in ---------------------------------------------------------------------------------------

  /**
   * With the right password, exactly the two statuses written out let an account log in, with the next version
   * stored; any other status, or none, is forbidden and leaves the version alone.
   */
  lemma RightPasswordLogsIn(cfg: Config, rows: Rows, email: string, password: string, u: Id)
    requires UniqueEmails(rows) && IsOpenAccount(rows, u, email)
    requires rows[u].password.text == password && password != ""
    ensures
      var after := After(cfg, rows, Login(email, password));
      && LoginStep(cfg, rows, email, password).outcome ==
           (if MayEnter(cfg, rows[u]) then LoggedIn(u, Version(rows[u]) + 1) else Failed(Forbidden))
      && after.Keys == rows.Keys && after[u].password == Hashed(password)
      && after[u].meta ==
           (if MayEnter(cfg, rows[u]) then rows[u].meta["refresh_token_version" := Whole(Version(rows[u]) + 1)]
            else rows[u].meta)
      && (forall v | v in rows && v != u :: after[v] == rows[v])
  {
    FoundIs(rows, u, email);
    StatusIs(cfg, rows[u]);
  }

  /** Otherwise the login fails and nothing is written. */
  lemma WrongLoginFails(cfg: Config, rows: Rows, email: string, password: string)
    ensures (forall v :: !IsOpenAccount(rows, v, email)) ==>
      LoginStep(cfg, rows, email, password) == AccountStep([], Failed(NotFound))
    ensures forall u | UniqueEmails(rows) && IsOpenAccount(rows, u, email) && rows[u].password.text != password ::
      LoginStep(cfg, rows, email, password) == AccountStep([], Failed(Unauthorized))
  {
    if forall v :: !IsOpenAccount(rows, v, email) {
      NothingFound(rows, email);
    }
    forall u | UniqueEmails(rows) && IsOpenAccount(rows, u, email) && rows[u].password.text != password
      ensures LoginStep(cfg, rows, email, password) == AccountStep([], Failed(Unauthorized))
    {
      FoundIs(rows, u, email);
    }
  }

  /** A refresh writes nothing, and answers by signature, type, account, status and version, in this order. */
  lemma RefreshAnswers(cfg: Config, rows: Rows, kind: Kind, u: Id, version: int)
    ensures RefreshStep(cfg, rows, Rejected) == AccountStep([], Failed(Unauthorized))
    ensures RefreshStep(cfg, rows, Signed(Token(kind, u, version))) == AccountStep([],
      if kind == AccessToken then Failed(Forbidden)
      else if u !in rows || rows[u].life == Closed then Failed(NotFound)
      else if !MayEnter(cfg, rows[u]) then Failed(Forbidden)
      else if version != Version(rows[u]) then Failed(Unauthorized)
      else Refreshed(u, version))
  {
    if u in rows {
      StatusIs(cfg, rows[u]);
    }
  }

  /** The authentication of a request asks for the version before the status. */
  lemma AuthenticationAnswers(cfg: Config, rows: Rows, kind: Kind, u: Id, version: int)
    ensures Authenticate(cfg, rows, Rejected) == Failed(Unauthorized)
    ensures Authenticate(cfg, rows, Signed(Token(kind, u, version))) ==
      if kind == RefreshToken then Failed(Forbidden)
      else if u !in rows || rows[u].life == Closed then Failed(NotFound)
      else if version != Version(rows[u]) then Failed(Unauthorized)
      else if !MayEnter(cfg, rows[u]) then Failed(Forbidden)
      else LoggedIn(u, version)
  {
    if u in rows {
      StatusIs(cfg, rows[u]);
    }
  }

  /** A revocation needs neither the current version nor any status. */
  lemma RevocationAnswers(rows: Rows, kind: Kind, u: Id, version: int)
    ensures RevokeStep(rows, Rejected) == AccountStep([], Failed(Unauthorized))
    ensures
      var step := RevokeStep(rows, Signed(Token(kind, u, version)));
      if kind == AccessToken then step == AccountStep([], Failed(Forbidden))
      else if u !in rows || rows[u].life == Closed then step == AccountStep([], Failed(NotFound))
      else
        && step.outcome == Revoked(u) && |step.trail| == 1 && step.trail[0].Keys == rows.Keys
        && step.trail[0][u] ==
             rows[u].(meta := rows[u].meta["refresh_token_version" := Whole(Version(rows[u]) + 1)])
        && (forall v | v in rows && v != u :: step.trail[0][v] == rows[v])
  {
  }

  /** Over any run: a token that was handed out works exactly while nothing ended it and the status admits it. */
  lemma TokenWorksByStatus(cfg: Config, ops: seq<AccountOp>, run: Run, k: nat, n: nat, u: Id, version: int)
    requires IsRun(cfg, ops, run) && k < n <= |ops| && Issues(run.outcomes[k], u, version)
    ensures u in run.states[n]
    ensures
      var now := run.states[n];
      var works := BumpCount(run.outcomes, k + 1, n, u) == 0 && now[u].life == Open && MayEnter(cfg, now[u]);
      && (Authenticate(cfg, now, Signed(Token(AccessToken, u, version))) == LoggedIn(u, version) <==> works)
      && (RefreshStep(cfg, now, Signed(Token(RefreshToken, u, version))).outcome == Refreshed(u, version) <==> works)
  {
    TokenWorksIff(cfg, ops, run, k, n, u, version);
    StatusIs(cfg, run.states[n][u]);
  }

  // Verification and profile ------------------------------------------------------------------------------

  /** A verification link activates a waiting account, tells an active one so, and is refused for any other status. */
  lemma VerificationAnswers(rows: Rows, email: string, u: Id)
    requires UniqueEmails(rows) && IsOpenAccount(rows, u, email)
    ensures VerifyStep(rows, email) ==
      if HasStatus(rows[u], "Active") then AccountStep([], AlreadyActive(u))
      else if HasStatus(rows[u], "Awaiting Verification") then
        AccountStep([rows[u := rows[u].(meta := rows[u].meta["status" := Text("Active")])]], Verified(u))
      else AccountStep([], Failed(Forbidden))
  {
    FoundIs(rows, u, email);
    assert "Active" != "Awaiting Verification";
  }

  lemma UnknownIsNotVerified(rows: Rows, email: string)
    requires forall v :: !IsOpenAccount(rows, v, email)
    ensures VerifyStep(rows, email) == AccountStep([], Failed(NotFound))
  {
    NothingFound(rows, email);
  }

  /** A profile update with a password stores its hash: afterwards exactly that password passes the login's test. */
  lemma ProfilePasswordLogsIn(cfg: Config, rows: Rows, u: Id, password: string, otherFields: bool, tried: string)
    requires UniqueEmails(rows) && u in rows && rows[u].life == Open && password != ""
    ensures
      var step := UpdateProfileStep(rows, u, Some(password), otherFields);
      && step.outcome == Updated(u) && |step.trail| == 1
      && LoginStep(cfg, step.trail[0], rows[u].email, tried).outcome ==
           if tried != password then Failed(Unauthorized)
           else if MayEnter(cfg, rows[u]) then LoggedIn(u, Version(rows[u]) + 1)
           else Failed(Forbidden)
  {
    var after := UpdateProfileStep(rows, u, Some(password), otherFields).trail[0];
    assert after == rows[u := rows[u].(password := Hashed(password))];
    assert UniqueEmails(after) && IsOpenAccount(after, u, rows[u].email);
    if tried == password {
      RightPasswordLogsIn(cfg, after, rows[u].email, tried, u);
    } else {
      WrongLoginFails(cfg, after, rows[u].email, tried);
    }
  }

  /** Without a password it needs another field and an open account, and changes no account row. */
  lemma ProfileWithoutPassword(rows: Rows, u: Id, empty: Option<string>, otherFields: bool)
    requires empty.None? || empty.value == ""
    ensures UpdateProfileStep(rows, u, empty, otherFields) ==
      if otherFields && u in rows && rows[u].life == Open then AccountStep([rows], Updated(u))
      else AccountStep([], Failed(BadRequest))
  {
  }

  /** An open account can be deleted whatever its status: its row stays, closed. */
  lemma DeletionAnswers(rows: Rows, u: Id)
    ensures DeleteUserStep(rows, u) ==
      if u in rows && rows[u].life == Open then AccountStep([rows[u := rows[u].(life := Closed)]], Deleted(u))
      else AccountStep([], Failed(NotFound))
  {
  }

  lemma ClosedProfileIsRefused(rows: Rows, u: Id, newPassword: Option<string>, otherFields: bool)
    requires u !in rows || rows[u].life == Closed
    ensures UpdateProfileStep(rows, u, newPassword, otherFields) == AccountStep([], Failed(BadRequest))
  {
  }

  // Registration ------------------------------------------------------------------------------------------

  /** The two commits of a registration, and why one fails: the password first, then the email, closed rows included. */
  lemma RegistrationAnswers(cfg: Config, rows: Rows, id: Id, email: string, password: string)
    ensures
      var taken := exists u | u in rows :: rows[u].email == email;
      var row := User(email, Hashed(password), false, Open, map[]);
      var status := if cfg.requireVerification then "Awaiting Verification" else "Active";
      RegisterStep(cfg, rows, id, email, password) ==
        if password == "" then AccountStep([], Failed(Crashed))
        else if taken then AccountStep([], Failed(Conflict))
        else if id in rows then AccountStep([], Failed(Crashed))
        else AccountStep([rows[id := row], rows[id := row.(meta := map["status" := Text(status)])]], Registered(id))
  {
    FoundIsOpen(rows, email);
    if exists u | u in rows :: rows[u].email == email {
      var u :| u in rows && rows[u].email == email;
      assert HasEmail(rows, u, email);
    } else if password != "" && id !in rows {
      var inserted := rows[id := User(email, Hashed(password), false, Open, map[])];
      assert WithMeta(inserted, id, STATUS_KEY, Text(FirstStatus(cfg))) ==
        rows[id := inserted[id].(meta := map["status" := Text(FirstStatus(cfg))])];
    }
  }

  // Password resets ---------------------------------------------------------------------------------------

  /** The row holds this token for this method, and it has not expired. */
  predicate HoldsRecord(row: User, method_: ResetMethod, token: string, now: int) {
    && "password_reset" in row.meta && row.meta["password_reset"].Reset?
    && var record := row.meta["password_reset"].record;
    record.method_ == method_ && record.token == token && now < record.expires
  }

  /** A request asks for the configuration, the limit and the account, and never tells whether there is one. */
  lemma ResetRequestAnswers(cfg: Config, rows: Rows, email: string, method_: ResetMethod, token: string, now: int,
                            limited: bool, u: Id)
    requires UniqueEmails(rows) && IsOpenAccount(rows, u, email)
    ensures RequestResetStep(cfg, rows, email, method_, token, now, limited) ==
      if method_ == MagicLink && !cfg.frontendUrl then AccountStep([], Failed(Misconfigured))
      else if limited then AccountStep([], Failed(RateLimited))
      else
        var record := ResetRecord(method_, token, now + cfg.resetExpiry);
        AccountStep([rows[u := rows[u].(meta := rows[u].meta["password_reset" := Reset(record)])]],
          ResetIssued(u, record))
  {
    FoundIs(rows, u, email);
  }

  lemma UnknownIsAcknowledged(cfg: Config, rows: Rows, email: string, method_: ResetMethod, token: string, now: int)
    requires forall v :: !IsOpenAccount(rows, v, email)
    requires method_ == MagicLink ==> cfg.frontendUrl
    ensures RequestResetStep(cfg, rows, email, method_, token, now, false) == AccountStep([], Acknowledged)
  {
    NothingFound(rows, email);
  }

  /** A code changes the password exactly if the account of the email holds it; both are then gone or replaced. */
  lemma CodeAnswers(rows: Rows, email: string, otp: string, password: string, now: int, u: Id)
    requires UniqueEmails(rows) && IsOpenAccount(rows, u, email)
    ensures OtpResetStep(rows, email, otp, password, now) ==
      if !HoldsRecord(rows[u], Otp, otp, now) then AccountStep([], Failed(BadRequest))
      else if password == "" then AccountStep([], Failed(Crashed))
      else
        AccountStep([rows[u := rows[u].(password := Hashed(password), meta := rows[u].meta - {"password_reset"})]],
          PasswordReset(u, Otp, otp, now))
  {
    FoundIs(rows, u, email);
  }

  /** A link changes the password of the first open row that holds its token, if it has not expired. */
  lemma LinkAnswers(rows: Rows, token: string, password: string, now: int, order: seq<Id>, u: Id)
    requires UniqueEmails(rows) && u in rows && FirstHolder(rows, order, MagicLink, token) == Some(u)
    ensures MagicResetStep(rows, token, password, now, order) ==
      if !HoldsRecord(rows[u], MagicLink, token, now) then AccountStep([], Failed(BadRequest))
      else if password == "" then AccountStep([], Failed(Crashed))
      else
        AccountStep([rows[u := rows[u].(password := Hashed(password), meta := rows[u].meta - {"password_reset"})]],
          PasswordReset(u, MagicLink, token, now))
  {
    FoundIs(rows, u, rows[u].email);
  }

  lemma UnknownCannotReset(rows: Rows, email: string, otp: string, token: string, password: string, now: int,
                           order: seq<Id>)
    ensures (forall v :: !IsOpenAccount(rows, v, email)) ==>
      OtpResetStep(rows, email, otp, password, now) == AccountStep([], Failed(NotFound))
    ensures (forall v | v in order && v in rows && rows[v].life == Open ::
        !exists at :: HoldsRecord(rows[v], MagicLink, token, at)) ==>
      MagicResetStep(rows, token, password, now, order) == AccountStep([], Failed(BadRequest))
  {
    if forall v :: !IsOpenAccount(rows, v, email) {
      NothingFound(rows, email);
    }
    var holder := FirstHolder(rows, order, MagicLink, token);
    if holder.Some? {
      var v := holder.value;
      assert HoldsRecord(rows[v], MagicLink, token, PendingReset(rows[v]).value.expires - 1);
    }
  }
}
