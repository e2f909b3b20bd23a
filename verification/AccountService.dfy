/** The account services: registration, sessions, verification, password resets and profiles, end to end. */
module AccountService {
  import opened Prelude
  import opened Users
  import opened Spec = Accounts
  import UserRepository
  import CompositeLimiter

  /** The clock as each of the three limiters reads it. */
  datatype Readings = Readings(email: real, ip: real, pair: real)

  /** The question put to the limiter; a missing client address counts as "unknown". */
  function CheckFor(email: string, clientIp: Option<string>, clock: Readings): CompositeLimiter.Check {
    CompositeLimiter.Check(email, Some(CompositeLimiter.IpText(clientIp)), clock.email, clock.ip, clock.pair)
  }

  /** Filing a missing address under its name first makes no difference. */
  lemma CheckForIs(s: CompositeLimiter.Limiters, email: string, clientIp: Option<string>, clock: Readings)
    ensures CompositeLimiter.CheckStep(s, CheckFor(email, clientIp, clock)) ==
      CompositeLimiter.CheckStep(s, CompositeLimiter.Check(email, clientIp, clock.email, clock.ip, clock.pair))
  {
    assert CompositeLimiter.IpText(Some(CompositeLimiter.IpText(clientIp))) == CompositeLimiter.IpText(clientIp);
  }

  class AccountService {
    const users: UserRepository.UserRepository
    const cfg: Config

    constructor (users: UserRepository.UserRepository, cfg: Config)
      ensures this.users == users && this.cfg == cfg
    {
      this.users, this.cfg := users, cfg;
    }

    /** The step was carried out: its commits, and nothing else. */
    twostate predicate Performed(step: AccountStep, o: Outcome)
      reads users.session
    {
      users.Committed(step.trail) && o == step.outcome
    }

    function Rows(): Spec.Rows
      reads users.session
    {
      users.session.db.users
    }

    method Register(id: Id, email: string, password: string) returns (o: Outcome)
      requires users.Ready()
      modifies users.session
      ensures Performed(RegisterStep(cfg, old(Rows()), id, email, password), o)
    {
      if password == "" {
        return Failed(Crashed);
      }
      o := users.CreateUser(cfg, id, email, password);
    }

    method Login(email: string, password: string) returns (o: Outcome)
      requires users.Ready()
      modifies users.session
      ensures Performed(LoginStep(cfg, old(Rows()), email, password), o)
    {
      var found := users.FindOpen(email);
      if found.None? {
        return Failed(NotFound);
      }
      var u := found.value;
      var failure, trail := users.CheckPassword(u, password);
      if failure.Some? {
        return Failed(failure.value);
      }
      if !StatusAllowed(cfg, users.session.db.users[u]) {
        return Failed(Forbidden);
      }
      var version := users.IncrementRefreshTokenVersion(u);
      o := LoggedIn(u, version.value);
    }

    method Refresh(credential: Credential) returns (o: Outcome)
      requires users.session.Clean()
      modifies users.session
      ensures Performed(RefreshStep(cfg, old(Rows()), credential), o)
    {
      o := Decoded(credential, RefreshToken);
      if o.Failed? {
        return;
      }
      var token := credential.token;
      if !IsOpenUser(users.session.db.users, token.user) {
        return Failed(NotFound);
      }
      if !StatusAllowed(cfg, users.session.db.users[token.user]) {
        return Failed(Forbidden);
      }
      var version := users.GetRefreshTokenVersion(token.user);
      if token.version != version.value {
        return Failed(Unauthorized);
      }
      o := Refreshed(token.user, version.value);
    }

    method Revoke(credential: Credential) returns (o: Outcome)
      requires users.session.Clean()
      modifies users.session
      ensures Performed(RevokeStep(old(Rows()), credential), o)
    {
      o := Decoded(credential, RefreshToken);
      if o.Failed? {
        return;
      }
      var version := users.IncrementRefreshTokenVersion(credential.token.user);
      if version.None? {
        return Failed(NotFound);
      }
      o := Revoked(credential.token.user);
    }

    /** The current user behind an access token. */
    method CurrentUser(credential: Credential) returns (o: Outcome)
      ensures o == Authenticate(cfg, Rows(), credential)
    {
      o := Decoded(credential, AccessToken);
      if o.Failed? {
        return;
      }
      var token := credential.token;
      var version := users.GetRefreshTokenVersion(token.user);
      if version.None? {
        return Failed(NotFound);
      }
      if token.version != version.value {
        return Failed(Unauthorized);
      }
      if !StatusAllowed(cfg, users.session.db.users[token.user]) {
        return Failed(Forbidden);
      }
      o := LoggedIn(token.user, token.version);
    }

    method VerifyAccount(email: string) returns (o: Outcome)
      requires users.Ready()
      modifies users.session
      ensures Performed(VerifyStep(old(Rows()), email), o)
    {
      var found := users.FindOpen(email);
      if found.None? {
        return Failed(NotFound);
      }
      var status := Status(users.session.db.users[found.value]);
      if status == Some(ACTIVE) {
        return AlreadyActive(found.value);
      }
      if status != Some(AWAITING_VERIFICATION) {
        return Failed(Forbidden);
      }
      users.UpdateJsonField(found.value, STATUS_KEY, Text(ACTIVE));
      o := Verified(found.value);
    }

    /** The limiter is asked, for this email and client address, after the configuration check and before the lookup. */
    method RequestPasswordReset(email: string, method_: ResetMethod, token: string, now: int, clientIp: Option<string>,
                                limiter: CompositeLimiter.PasswordResetRateLimiter, clock: Readings)
      returns (o: Outcome)
      requires users.Ready() && limiter.Valid()
      modifies users.session, limiter.perEmail, limiter.perIp, limiter.perPair
      ensures
        var check := CompositeLimiter.Check(email, clientIp, clock.email, clock.ip, clock.pair);
        var (limiters, verdict) := CompositeLimiter.CheckStep(old(limiter.State()), check);
        var refused := method_.MagicLink? && !cfg.frontendUrl;
        && limiter.State() == (if refused then old(limiter.State()) else limiters)
        && Performed(RequestResetStep(cfg, old(Rows()), email, method_, token, now, verdict.Raised?), o)
    {
      if method_.MagicLink? && !cfg.frontendUrl {
        return Failed(Misconfigured);
      }
      CheckForIs(limiter.State(), email, clientIp, clock);
      var verdict := limiter.Check(CheckFor(email, clientIp, clock));
      if verdict.Raised? {
        return Failed(RateLimited);
      }
      var found := users.FindOpen(email);
      if found.None? {
        return Acknowledged;
      }
      var record := ResetRecord(method_, token, now + cfg.resetExpiry);
      var holder := users.CreatePasswordResetRecord(users.session.db.users[found.value].email, record);
      if holder.None? {
        return Failed(NotFound);
      }
      o := ResetIssued(holder.value, record);
    }

    method ValidateOtpAndChangePassword(email: string, otp: string, password: string, now: int) returns (o: Outcome)
      requires users.Ready()
      modifies users.session
      ensures Performed(OtpResetStep(old(Rows()), email, otp, password, now), o)
    {
      var found := users.FindOpen(email);
      if found.None? {
        return Failed(NotFound);
      }
      o := users.SpendPasswordReset(users.session.db.users[found.value].email, Otp, otp, password, now);
    }

    method ResetPasswordWithToken(token: string, password: string, now: int, order: seq<Id>) returns (o: Outcome)
      requires users.Ready()
      modifies users.session
      ensures Performed(MagicResetStep(old(Rows()), token, password, now, order), o)
    {
      var holder := users.FindByResetToken(order, MagicLink, token);
      if holder.None? {
        return Failed(BadRequest);
      }
      o := users.SpendPasswordReset(users.session.db.users[holder.value].email, MagicLink, token, password, now);
    }

    method UpdateProfile(u: Id, newPassword: Option<string>, otherFields: bool) returns (o: Outcome)
      requires users.session.Clean()
      modifies users.session
      ensures Performed(UpdateProfileStep(old(Rows()), u, newPassword, otherFields), o)
    {
      var given := newPassword.Some? && newPassword.value != "";
      if !given && !otherFields {
        return Failed(BadRequest);
      }
      if !IsOpenUser(users.session.db.users, u) {
        return Failed(BadRequest);
      }
      var row := users.session.db.users[u];
      if given {
        row := row.(password := Hashed(newPassword.value));
      }
      users.CommitRow(u, row);
      assert old(Rows())[u := old(Rows())[u]] == old(Rows());
      o := Updated(u);
    }
  }
}
