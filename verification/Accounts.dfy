/** Accounts: what each request does to the user rows, the token versions and the reset records. */
module Accounts {
  import opened Prelude
  import opened Users

  type Rows = map<Id, User>

  datatype Config = Config(requireVerification: bool, frontendUrl: bool, resetExpiry: int)

  datatype Kind = AccessToken | RefreshToken

  /** The claims of a token that the program reads back. */
  datatype Token = Token(kind: Kind, user: Id, version: int)

  /** What a client presents; Rejected stands for a bad signature or an expired token. */
  datatype Credential = Rejected | Signed(token: Token)

  datatype Failure = NotFound | Unauthorized | Forbidden | Conflict | BadRequest | RateLimited | Misconfigured | Crashed

  /** LoggedIn and Refreshed hand out an access and a refresh token of that user and version. */
  datatype Outcome =
    | Registered(user: Id)
    | LoggedIn(user: Id, version: int)
    | Refreshed(user: Id, version: int)
    | Revoked(user: Id)
    | Promoted(user: Id)
    | Verified(user: Id)
    | AlreadyActive(user: Id)
    | ResetIssued(user: Id, record: ResetRecord)
    | Acknowledged
    | PasswordReset(user: Id, method_: ResetMethod, token: string, now: int)
    | Updated(user: Id)
    | Deleted(user: Id)
    | Failed(why: Failure)

  /** The states of the user table that one request commits, in order, and what it reports. */
  datatype AccountStep = AccountStep(trail: seq<Rows>, outcome: Outcome)

  datatype AccountOp =
    | Register(id: Id, email: string, password: string)
    | Login(email: string, password: string)
    | Refresh(credential: Credential)
    | Revoke(credential: Credential)
    | Verify(email: string)
    | Promote(u: Id)
    | RequestReset(email: string, method_: ResetMethod, token: string, now: int, limited: bool)
    | OtpReset(email: string, otp: string, password: string, now: int)
    | MagicReset(token: string, password: string, now: int, order: seq<Id>)
    | UpdateProfile(u: Id, newPassword: Option<string>, otherFields: bool)
    | DeleteUser(u: Id)

  function Fail(why: Failure): AccountStep {
    AccountStep([], Failed(why))
  }

  function Latest(rows: Rows, trail: seq<Rows>): Rows {
    if trail == [] then rows else trail[|trail| - 1]
  }

  // Rows ----------------------------------------------------------------------------------------

  predicate IsOpenUser(rows: Rows, u: Id) {
    u in rows && rows[u].life.Open?
  }

  predicate HasOpenEmail(rows: Rows, u: Id, email: string) {
    IsOpenUser(rows, u) && rows[u].email == email
  }

  predicate HasEmail(rows: Rows, u: Id, email: string) {
    u in rows && rows[u].email == email
  }

  /** The open account of an email. */
  ghost function OpenAccount(rows: Rows, email: string): (u: Option<Id>)
    ensures u.Some? ==> HasOpenEmail(rows, u.value, email)
    ensures u.None? ==> forall v :: !HasOpenEmail(rows, v, email)
  {
    if v :| HasOpenEmail(rows, v, email) then Some(v) else None
  }

  /** The account of an email, whether or not it is closed. */
  ghost function AnyAccount(rows: Rows, email: string): (u: Option<Id>)
    ensures u.Some? ==> HasEmail(rows, u.value, email)
    ensures u.None? ==> forall v :: !HasEmail(rows, v, email)
  {
    if v :| HasEmail(rows, v, email) then Some(v) else None
  }

  /** Writes one metadata key of one row. */
  function WithMeta(rows: Rows, u: Id, key: string, value: MetaValue): Rows
    requires u in rows
  {
    rows[u := rows[u].(meta := rows[u].meta[key := value])]
  }

  function WithPassword(rows: Rows, u: Id, password: string): Rows
    requires u in rows
  {
    rows[u := rows[u].(password := Hashed(password))]
  }

  /** A row with the next token version. */
  function Bumped(row: User): User {
    row.(meta := row.meta[VERSION_KEY := Whole(Version(row) + 1)])
  }

  function Bump(rows: Rows, u: Id): Rows
    requires u in rows
  {
    rows[u := Bumped(rows[u])]
  }

  /** The statuses that may log in, refresh and be authenticated. */
  predicate StatusAllowed(cfg: Config, row: User) {
    || Status(row) == Some(ACTIVE)
    || (!cfg.requireVerification && Status(row) == Some(AWAITING_VERIFICATION))
  }

  // Registration and tokens ------------------------------------------------------------------------

  function FirstStatus(cfg: Config): string {
    if cfg.requireVerification then AWAITING_VERIFICATION else ACTIVE
  }

  /** Two commits: the row, then its status. */
  ghost function RegisterStep(cfg: Config, rows: Rows, id: Id, email: string, password: string): AccountStep {
    if password == "" then Fail(Crashed)
    else if OpenAccount(rows, email).Some? then Fail(Conflict)
    else if AnyAccount(rows, email).Some? then Fail(Conflict)
    else if id in rows then Fail(Crashed)
    else
      var inserted := rows[id := User(email, Hashed(password), false, Open, map[])];
      AccountStep([inserted, WithMeta(inserted, id, STATUS_KEY, Text(FirstStatus(cfg)))], Registered(id))
  }

  /** The end of a login whose password was right. */
  function Admit(cfg: Config, rows: Rows, trail: seq<Rows>, u: Id): AccountStep
    requires u in rows
  {
    if !StatusAllowed(cfg, rows[u]) then AccountStep(trail, Failed(Forbidden))
    else AccountStep(trail + [Bump(rows, u)], LoggedIn(u, Version(rows[u]) + 1))
  }

  /** A legacy password that matches is hashed and committed, whatever becomes of the login. */
  ghost function LoginStep(cfg: Config, rows: Rows, email: string, password: string): AccountStep {
    var found := OpenAccount(rows, email);
    if found.None? then Fail(NotFound)
    else
      var u := found.value;
      if rows[u].password.text != password then Fail(Unauthorized)
      else if rows[u].password.Hashed? then Admit(cfg, rows, [], u)
      else if password == "" then Fail(Crashed)
      else
        var rehashed := WithPassword(rows, u, password);
        Admit(cfg, rehashed, [rehashed], u)
  }

  /** The checks that precede any use of a token: its signature and its type. */
  function Decoded(credential: Credential, kind: Kind): Outcome {
    if credential.Rejected? then Failed(Unauthorized)
    else if credential.token.kind != kind then Failed(Forbidden)
    else Acknowledged
  }

  function RefreshStep(cfg: Config, rows: Rows, credential: Credential): AccountStep {
    if Decoded(credential, RefreshToken).Failed? then AccountStep([], Decoded(credential, RefreshToken))
    else
      var token := credential.token;
      if !IsOpenUser(rows, token.user) then Fail(NotFound)
      else if !StatusAllowed(cfg, rows[token.user]) then Fail(Forbidden)
      else if token.version != Version(rows[token.user]) then Fail(Unauthorized)
      else AccountStep([], Refreshed(token.user, token.version))
  }

  function RevokeStep(rows: Rows, credential: Credential): AccountStep {
    if Decoded(credential, RefreshToken).Failed? then AccountStep([], Decoded(credential, RefreshToken))
    else if !IsOpenUser(rows, credential.token.user) then Fail(NotFound)
    else AccountStep([Bump(rows, credential.token.user)], Revoked(credential.token.user))
  }

  /** The authentication of a request by its access token: the user, or why not. */
  function Authenticate(cfg: Config, rows: Rows, credential: Credential): Outcome {
    if Decoded(credential, AccessToken).Failed? then Decoded(credential, AccessToken)
    else
      var token := credential.token;
      if !IsOpenUser(rows, token.user) then Failed(NotFound)
      else if token.version != Version(rows[token.user]) then Failed(Unauthorized)
      else if !StatusAllowed(cfg, rows[token.user]) then Failed(Forbidden)
      else LoggedIn(token.user, token.version)
  }

  /** A followed verification link. */
  ghost function VerifyStep(rows: Rows, email: string): AccountStep {
    var found := OpenAccount(rows, email);
    if found.None? then Fail(NotFound)
    else if Status(rows[found.value]) == Some(ACTIVE) then AccountStep([], AlreadyActive(found.value))
    else if Status(rows[found.value]) != Some(AWAITING_VERIFICATION) then Fail(Forbidden)
    else AccountStep([WithMeta(rows, found.value, STATUS_KEY, Text(ACTIVE))], Verified(found.value))
  }

  /** The row that a successful superuser bootstrap writes. */
  function PromotedRow(row: User): User {
    Bumped(row).(superuser := true)
  }

  function PromoteStep(rows: Rows, u: Id): AccountStep {
    if !IsOpenUser(rows, u) || Status(rows[u]) != Some(ACTIVE) then Fail(BadRequest)
    else AccountStep([rows[u := PromotedRow(rows[u])]], Promoted(u))
  }

  // Password resets ---------------------------------------------------------------------------------

  ghost function RequestResetStep(cfg: Config, rows: Rows, email: string, method_: ResetMethod, token: string,
                                  now: int, limited: bool): AccountStep
  {
    if method_.MagicLink? && !cfg.frontendUrl then Fail(Misconfigured)
    else if limited then Fail(RateLimited)
    else
      var found := OpenAccount(rows, email);
      if found.None? then AccountStep([], Acknowledged)
      else
        var holder := AnyAccount(rows, rows[found.value].email);
        if holder.None? then Fail(NotFound)
        else
          var record := ResetRecord(method_, token, now + cfg.resetExpiry);
          AccountStep([WithMeta(rows, holder.value, RESET_KEY, Reset(record))], ResetIssued(holder.value, record))
  }

  /** The record matches and has not expired. */
  predicate ResetAllowed(row: User, method_: ResetMethod, token: string, now: int) {
    var pending := PendingReset(row);
    pending.Some? && pending.value.method_ == method_ && pending.value.token == token && now < pending.value.expires
  }

  /** Verifies the record of an email's account and spends it. */
  ghost function SpendReset(rows: Rows, email: string, method_: ResetMethod, token: string, password: string,
                            now: int): AccountStep
  {
    var holder := AnyAccount(rows, email);
    if holder.None? then Fail(NotFound)
    else
      var row := rows[holder.value];
      if !ResetAllowed(row, method_, token, now) then Fail(BadRequest)
      else if password == "" then Fail(Crashed)
      else
        AccountStep([rows[holder.value := row.(password := Hashed(password), meta := row.meta - {RESET_KEY})]],
          PasswordReset(holder.value, method_, token, now))
  }

  ghost function OtpResetStep(rows: Rows, email: string, otp: string, password: string, now: int): AccountStep {
    var found := OpenAccount(rows, email);
    if found.None? then Fail(NotFound)
    else SpendReset(rows, rows[found.value].email, Otp, otp, password, now)
  }

  predicate Holds(rows: Rows, u: Id, method_: ResetMethod, token: string) {
    && IsOpenUser(rows, u) && PendingReset(rows[u]).Some?
    && PendingReset(rows[u]).value.method_ == method_ && PendingReset(rows[u]).value.token == token
  }

  /** The first row, in the order the database returns them, that holds the token. */
  function FirstHolder(rows: Rows, order: seq<Id>, method_: ResetMethod, token: string): (u: Option<Id>)
    ensures u.Some? ==> u.value in order && Holds(rows, u.value, method_, token)
    ensures u.None? ==> forall v | v in order :: !Holds(rows, v, method_, token)
  {
    if order == [] then None
    else if Holds(rows, order[0], method_, token) then Some(order[0])
    else FirstHolder(rows, order[1..], method_, token)
  }

  ghost function MagicResetStep(rows: Rows, token: string, password: string, now: int, order: seq<Id>): AccountStep {
    var holder := FirstHolder(rows, order, MagicLink, token);
    if holder.None? then Fail(BadRequest)
    else SpendReset(rows, rows[holder.value].email, MagicLink, token, password, now)
  }

  // Profiles ----------------------------------------------------------------------------------------

  function UpdateProfileStep(rows: Rows, u: Id, newPassword: Option<string>, otherFields: bool): AccountStep {
    var given := newPassword.Some? && newPassword.value != "";
    if !given && !otherFields then Fail(BadRequest)
    else if !IsOpenUser(rows, u) then Fail(BadRequest)
    else AccountStep([if given then WithPassword(rows, u, newPassword.value) else rows], Updated(u))
  }

  function DeleteUserStep(rows: Rows, u: Id): AccountStep {
    if !IsOpenUser(rows, u) then Fail(NotFound)
    else AccountStep([rows[u := rows[u].(life := Closed)]], Deleted(u))
  }

  ghost function Apply(cfg: Config, rows: Rows, op: AccountOp): AccountStep {
    match op
    case Register(id, email, password) => RegisterStep(cfg, rows, id, email, password)
    case Login(email, password) => LoginStep(cfg, rows, email, password)
    case Refresh(credential) => RefreshStep(cfg, rows, credential)
    case Revoke(credential) => RevokeStep(rows, credential)
    case Verify(email) => VerifyStep(rows, email)
    case Promote(u) => PromoteStep(rows, u)
    case RequestReset(email, method_, token, now, limited) =>
      RequestResetStep(cfg, rows, email, method_, token, now, limited)
    case OtpReset(email, otp, password, now) => OtpResetStep(rows, email, otp, password, now)
    case MagicReset(token, password, now, order) => MagicResetStep(rows, token, password, now, order)
    case UpdateProfile(u, newPassword, otherFields) => UpdateProfileStep(rows, u, newPassword, otherFields)
    case DeleteUser(u) => DeleteUserStep(rows, u)
  }

  ghost function After(cfg: Config, rows: Rows, op: AccountOp): Rows {
    Latest(rows, Apply(cfg, rows, op).trail)
  }

  // What a request may do to a row --------------------------------------------------------------------

  /** The requests that advance a user's token version. */
  predicate Bumps(outcome: Outcome, u: Id) {
    match outcome
    case LoggedIn(v, _) => v == u
    case Revoked(v) => v == u
    case Promoted(v) => v == u
    case _ => false
  }

  /** Rows are added or edited, never dropped, and emails stay unique, at every commit. */
  ghost predicate KeepsRows(rows: Rows, trail: seq<Rows>) {
    forall i | 0 <= i < |trail| :: rows.Keys <= trail[i].Keys && UniqueEmails(trail[i])
  }

  lemma EditKeepsRows(rows: Rows, u: Id, row: User)
    requires UniqueEmails(rows) && u in rows && row.email == rows[u].email
    ensures KeepsRows(rows, [rows[u := row]])
  {
  }

  lemma RegisterKeepsRows(cfg: Config, rows: Rows, id: Id, email: string, password: string)
    requires UniqueEmails(rows)
    ensures KeepsRows(rows, RegisterStep(cfg, rows, id, email, password).trail)
  {
    var step := RegisterStep(cfg, rows, id, email, password);
    if |step.trail| > 0 {
      assert UniqueEmails(step.trail[0]) by {
        assert forall v | v in rows :: !HasEmail(rows, v, email);
      }
      EditKeepsRows(step.trail[0], id, step.trail[1][id]);
    }
  }

  lemma LoginKeepsRows(cfg: Config, rows: Rows, email: string, password: string)
    requires UniqueEmails(rows)
    ensures KeepsRows(rows, LoginStep(cfg, rows, email, password).trail)
  {
    var found := OpenAccount(rows, email);
    if found.Some? {
      var u := found.value;
      EditKeepsRows(rows, u, WithPassword(rows, u, password)[u]);
      EditKeepsRows(rows, u, Bump(rows, u)[u]);
      var rehashed := WithPassword(rows, u, password);
      EditKeepsRows(rehashed, u, Bump(rehashed, u)[u]);
    }
  }

  lemma SpendKeepsRows(rows: Rows, email: string, method_: ResetMethod, token: string, password: string, now: int)
    requires UniqueEmails(rows)
    ensures KeepsRows(rows, SpendReset(rows, email, method_, token, password, now).trail)
  {
    var step := SpendReset(rows, email, method_, token, password, now);
    if |step.trail| > 0 {
      var u := AnyAccount(rows, email).value;
      EditKeepsRows(rows, u, step.trail[0][u]);
    }
  }

  lemma EveryCommitKeepsRows(cfg: Config, rows: Rows, op: AccountOp)
    requires UniqueEmails(rows)
    ensures KeepsRows(rows, Apply(cfg, rows, op).trail)
  {
    match op
    case Register(id, email, password) => RegisterKeepsRows(cfg, rows, id, email, password);
    case Login(email, password) => LoginKeepsRows(cfg, rows, email, password);
    case OtpReset(email, otp, password, now) =>
      if OpenAccount(rows, email).Some? {
        SpendKeepsRows(rows, rows[OpenAccount(rows, email).value].email, Otp, otp, password, now);
      }
    case MagicReset(token, password, now, order) =>
      var holder := FirstHolder(rows, order, MagicLink, token);
      if holder.Some? {
        SpendKeepsRows(rows, rows[holder.value].email, MagicLink, token, password, now);
      }
    case RequestReset(email, method_, token, now, limited) =>
      RequestKeepsRows(cfg, rows, email, method_, token, now, limited);
    case Refresh(_) =>
    case Revoke(_) => SingleEditKeepsRows(cfg, rows, op);
    case Verify(_) => SingleEditKeepsRows(cfg, rows, op);
    case Promote(_) => SingleEditKeepsRows(cfg, rows, op);
    case UpdateProfile(_, _, _) => SingleEditKeepsRows(cfg, rows, op);
    case DeleteUser(_) => SingleEditKeepsRows(cfg, rows, op);
  }

  lemma RequestKeepsRows(cfg: Config, rows: Rows, email: string, method_: ResetMethod, token: string, now: int,
                         limited: bool)
    requires UniqueEmails(rows)
    ensures KeepsRows(rows, RequestResetStep(cfg, rows, email, method_, token, now, limited).trail)
  {
    var step := RequestResetStep(cfg, rows, email, method_, token, now, limited);
    if step.outcome.ResetIssued? {
      EditKeepsRows(rows, step.outcome.user, step.trail[0][step.outcome.user]);
    }
  }

  lemma SingleEditKeepsRows(cfg: Config, rows: Rows, op: AccountOp)
    requires UniqueEmails(rows)
    requires op.Revoke? || op.Verify? || op.Promote? || op.UpdateProfile? || op.DeleteUser?
    ensures KeepsRows(rows, Apply(cfg, rows, op).trail)
  {
    var step := Apply(cfg, rows, op);
    if step.trail != [] && step.trail[0] != rows {
      EditKeepsRows(rows, step.outcome.user, step.trail[0][step.outcome.user]);
    }
  }

  /** The pending record after a request: set by an issue, spent by a reset, otherwise as before. */
  function PendingAfter(before: Option<ResetRecord>, outcome: Outcome, u: Id): Option<ResetRecord> {
    match outcome
    case ResetIssued(v, record) => if v == u then Some(record) else before
    case PasswordReset(v, _, _, _) => if v == u then None else before
    case _ => before
  }

  /** Keys of the metadata that this protocol does not own. */
  ghost predicate SameOtherKeys(a: Metadata, b: Metadata) {
    forall k | k != STATUS_KEY && k != VERSION_KEY && k != RESET_KEY ::
      (k in a <==> k in b) && (k in a ==> a[k] == b[k])
  }

  /** How a request's outcome decides what happens to a row: each writer touches only its own key. */
  ghost predicate RowFollows(before: User, after: User, outcome: Outcome, u: Id) {
    && after.email == before.email
    && Version(after) == Version(before) + (if Bumps(outcome, u) then 1 else 0)
    && PendingReset(after) == PendingAfter(PendingReset(before), outcome, u)
    && Status(after) == (if outcome == Verified(u) then Some(ACTIVE) else Status(before))
    && after.life == (if outcome == Deleted(u) then Closed else before.life)
    && after.superuser == (before.superuser || outcome == Promoted(u))
    && (|| after.password.text == before.password.text
        || outcome == Updated(u)
        || (outcome.PasswordReset? && outcome.user == u))
    && (before.password.Hashed? ==> after.password.Hashed?)
    && SameOtherKeys(before.meta, after.meta)
  }

  lemma SameRowFollows(row: User, password: Password, outcome: Outcome, u: Id)
    requires
      || outcome.Failed? || outcome.Refreshed? || outcome.AlreadyActive? || outcome.Acknowledged? || outcome.Updated?
    requires
      || password == row.password
      || (password.Hashed? && (password.text == row.password.text || outcome == Updated(u)))
    ensures RowFollows(row, row.(password := password), outcome, u)
  {
  }

  lemma BumpedRowFollows(row: User, password: Password, version: int, u: Id)
    requires password == row.password || (password.Hashed? && password.text == row.password.text)
    ensures RowFollows(row, Bumped(row.(password := password)), LoggedIn(u, version), u)
    ensures RowFollows(row, Bumped(row), Revoked(u), u)
    ensures RowFollows(row, PromotedRow(row), Outcome.Promoted(u), u)
  {
  }

  lemma VerifiedRowFollows(row: User, u: Id)
    ensures RowFollows(row, row.(meta := row.meta[STATUS_KEY := Text(ACTIVE)]), Verified(u), u)
  {
  }

  lemma DeletedRowFollows(row: User, u: Id)
    ensures RowFollows(row, row.(life := Closed), Deleted(u), u)
  {
  }

  lemma ResetRowFollows(row: User, record: ResetRecord, u: Id)
    ensures RowFollows(row, row.(meta := row.meta[RESET_KEY := Reset(record)]), ResetIssued(u, record), u)
  {
  }

  lemma SpentRowFollows(row: User, password: string, method_: ResetMethod, token: string, now: int, u: Id)
    ensures RowFollows(row, row.(password := Hashed(password), meta := row.meta - {RESET_KEY}),
      PasswordReset(u, method_, token, now), u)
  {
  }

  /** The user that an outcome is about. */
  function Subject(outcome: Outcome): Option<Id> {
    match outcome
    case Acknowledged => None
    case Failed(_) => None
    case _ => Some(outcome.user)
  }

  /** A row that the outcome is not about stays as it was. */
  lemma OthersFollow(row: User, outcome: Outcome, u: Id)
    requires Subject(outcome) != Some(u)
    ensures RowFollows(row, row, outcome, u)
  {
  }

  lemma LoginFollows(cfg: Config, rows: Rows, email: string, password: string, u: Id)
    requires u in rows
    ensures var step := LoginStep(cfg, rows, email, password);
      u in Latest(rows, step.trail) && RowFollows(rows[u], Latest(rows, step.trail)[u], step.outcome, u)
  {
    var step := LoginStep(cfg, rows, email, password);
    var after := Latest(rows, step.trail);
    var rehashed := if step.trail == [] then rows else step.trail[0];
    if step.outcome.Failed? {
      SameRowFollows(rows[u], after[u].password, step.outcome, u);
    } else if step.outcome.user == u {
      BumpedRowFollows(rows[u], rehashed[u].password, step.outcome.version, u);
    } else {
      OthersFollow(rows[u], step.outcome, u);
    }
  }

  lemma SpendFollows(rows: Rows, email: string, method_: ResetMethod, token: string, password: string, now: int, u: Id)
    requires u in rows
    ensures var step := SpendReset(rows, email, method_, token, password, now);
      u in Latest(rows, step.trail) && RowFollows(rows[u], Latest(rows, step.trail)[u], step.outcome, u)
  {
    var step := SpendReset(rows, email, method_, token, password, now);
    if step.outcome.Failed? {
      SameRowFollows(rows[u], rows[u].password, step.outcome, u);
    } else if step.outcome.user == u {
      SpentRowFollows(rows[u], password, method_, token, now, u);
    } else {
      OthersFollow(rows[u], step.outcome, u);
    }
  }

  lemma RequestFollows(cfg: Config, rows: Rows, email: string, method_: ResetMethod, token: string, now: int,
                       limited: bool, u: Id)
    requires u in rows
    ensures var step := RequestResetStep(cfg, rows, email, method_, token, now, limited);
      u in Latest(rows, step.trail) && RowFollows(rows[u], Latest(rows, step.trail)[u], step.outcome, u)
  {
    var step := RequestResetStep(cfg, rows, email, method_, token, now, limited);
    if step.outcome.Failed? || step.outcome.Acknowledged? {
      SameRowFollows(rows[u], rows[u].password, step.outcome, u);
    } else if step.outcome.user == u {
      ResetRowFollows(rows[u], step.outcome.record, u);
    } else {
      OthersFollow(rows[u], step.outcome, u);
    }
  }

  lemma RefreshFollows(cfg: Config, rows: Rows, credential: Credential, u: Id)
    requires u in rows
    ensures var step := RefreshStep(cfg, rows, credential);
      u in Latest(rows, step.trail) && RowFollows(rows[u], Latest(rows, step.trail)[u], step.outcome, u)
  {
    var outcome := RefreshStep(cfg, rows, credential).outcome;
    if Subject(outcome) != Some(u) {
      OthersFollow(rows[u], outcome, u);
    } else {
      SameRowFollows(rows[u], rows[u].password, outcome, u);
    }
  }

  lemma RevokeFollows(rows: Rows, credential: Credential, u: Id)
    requires u in rows
    ensures var step := RevokeStep(rows, credential);
      u in Latest(rows, step.trail) && RowFollows(rows[u], Latest(rows, step.trail)[u], step.outcome, u)
  {
    var outcome := RevokeStep(rows, credential).outcome;
    if Subject(outcome) != Some(u) {
      OthersFollow(rows[u], outcome, u);
    } else {
      BumpedRowFollows(rows[u], rows[u].password, 0, u);
    }
  }

  lemma PromoteFollows(rows: Rows, target: Id, u: Id)
    requires u in rows
    ensures var step := PromoteStep(rows, target);
      u in Latest(rows, step.trail) && RowFollows(rows[u], Latest(rows, step.trail)[u], step.outcome, u)
  {
    var outcome := PromoteStep(rows, target).outcome;
    if Subject(outcome) != Some(u) {
      OthersFollow(rows[u], outcome, u);
    } else {
      BumpedRowFollows(rows[u], rows[u].password, 0, u);
    }
  }

  lemma RowOpFollows(cfg: Config, rows: Rows, op: AccountOp, u: Id)
    requires u in rows && (op.Verify? || op.UpdateProfile? || op.DeleteUser?)
    ensures u in After(cfg, rows, op)
    ensures RowFollows(rows[u], After(cfg, rows, op)[u], Apply(cfg, rows, op).outcome, u)
  {
    var outcome := Apply(cfg, rows, op).outcome;
    if Subject(outcome) != Some(u) {
      OthersFollow(rows[u], outcome, u);
    } else if outcome.Verified? {
      VerifiedRowFollows(rows[u], u);
    } else if outcome.Deleted? {
      DeletedRowFollows(rows[u], u);
    } else {
      SameRowFollows(rows[u], After(cfg, rows, op)[u].password, outcome, u);
    }
  }

  lemma RegisterFollows(cfg: Config, rows: Rows, id: Id, email: string, password: string, u: Id)
    requires u in rows
    ensures var step := RegisterStep(cfg, rows, id, email, password);
      u in Latest(rows, step.trail) && RowFollows(rows[u], Latest(rows, step.trail)[u], step.outcome, u)
  {
    OthersFollow(rows[u], RegisterStep(cfg, rows, id, email, password).outcome, u);
  }

  /** A request changes a row only as its outcome says: each writer keeps to its own metadata key. */
  lemma EachWriterKeepsToItsKey(cfg: Config, rows: Rows, op: AccountOp, u: Id)
    requires u in rows
    ensures u in After(cfg, rows, op)
    ensures RowFollows(rows[u], After(cfg, rows, op)[u], Apply(cfg, rows, op).outcome, u)
  {
    match op
    case Register(id, email, password) => RegisterFollows(cfg, rows, id, email, password, u);
    case Login(email, password) => LoginFollows(cfg, rows, email, password, u);
    case RequestReset(email, method_, token, now, limited) =>
      RequestFollows(cfg, rows, email, method_, token, now, limited, u);
    case OtpReset(email, otp, password, now) =>
      var found := OpenAccount(rows, email);
      if found.Some? {
        SpendFollows(rows, rows[found.value].email, Otp, otp, password, now, u);
      } else {
        SameRowFollows(rows[u], rows[u].password, Failed(NotFound), u);
      }
    case MagicReset(token, password, now, order) =>
      var holder := FirstHolder(rows, order, MagicLink, token);
      if holder.Some? {
        SpendFollows(rows, rows[holder.value].email, MagicLink, token, password, now, u);
      } else {
        SameRowFollows(rows[u], rows[u].password, Failed(BadRequest), u);
      }
    case Verify(_) => RowOpFollows(cfg, rows, op, u);
    case UpdateProfile(_, _, _) => RowOpFollows(cfg, rows, op, u);
    case DeleteUser(_) => RowOpFollows(cfg, rows, op, u);
    case Refresh(credential) => RefreshFollows(cfg, rows, credential, u);
    case Revoke(credential) => RevokeFollows(rows, credential, u);
    case Promote(target) => PromoteFollows(rows, target, u);
  }

  // When requests succeed -----------------------------------------------------------------------------

  lemma OnlyAccountOf(rows: Rows, u: Id)
    requires UniqueEmails(rows) && u in rows
    ensures AnyAccount(rows, rows[u].email) == Some(u)
    ensures rows[u].life.Open? ==> OpenAccount(rows, rows[u].email) == Some(u)
  {
    assert HasEmail(rows, u, rows[u].email);
    assert rows[u].life.Open? ==> HasOpenEmail(rows, u, rows[u].email);
  }

  /** Registration succeeds exactly for a non-empty password, an unused id and an email that no row has, even closed. */
  lemma RegisterWorksIff(cfg: Config, rows: Rows, id: Id, email: string, password: string)
    ensures RegisterStep(cfg, rows, id, email, password).outcome == Registered(id) <==>
      password != "" && id !in rows && forall u :: !HasEmail(rows, u, email)
  {
    assert forall u :: HasOpenEmail(rows, u, email) ==> HasEmail(rows, u, email);
  }

  /** A login succeeds exactly for the open account of the email, the right password and an allowed status. */
  lemma LoginWorksIff(cfg: Config, rows: Rows, email: string, password: string, u: Id, version: int)
    requires UniqueEmails(rows)
    ensures LoginStep(cfg, rows, email, password).outcome == LoggedIn(u, version) <==>
      && HasOpenEmail(rows, u, email) && rows[u].password.text == password && rows[u].password != Legacy("")
      && StatusAllowed(cfg, rows[u]) && version == Version(rows[u]) + 1
  {
    var found := OpenAccount(rows, email);
    if found.Some? {
      OnlyAccountOf(rows, found.value);
    }
    if HasOpenEmail(rows, u, email) {
      OnlyAccountOf(rows, u);
    }
  }

  /** The right password leaves a hash behind, even when the status then refuses the login. */
  lemma RightPasswordIsHashed(cfg: Config, rows: Rows, email: string, password: string, u: Id)
    requires UniqueEmails(rows) && HasOpenEmail(rows, u, email) && rows[u].password.text == password != ""
    ensures
      var after := Latest(rows, LoginStep(cfg, rows, email, password).trail);
      u in after && after[u].password == Hashed(password)
  {
    OnlyAccountOf(rows, u);
  }

  /** A reset is issued exactly for an open account, within the limits, and for a link only if its address is known. */
  lemma RequestIssuesIff(cfg: Config, rows: Rows, email: string, method_: ResetMethod, token: string, now: int,
                         limited: bool, u: Id, record: ResetRecord)
    requires UniqueEmails(rows)
    ensures RequestResetStep(cfg, rows, email, method_, token, now, limited).outcome == ResetIssued(u, record) <==>
      && HasOpenEmail(rows, u, email) && !limited && (method_.MagicLink? ==> cfg.frontendUrl)
      && record == ResetRecord(method_, token, now + cfg.resetExpiry)
  {
    var found := OpenAccount(rows, email);
    if found.Some? {
      OnlyAccountOf(rows, found.value);
    }
    if HasOpenEmail(rows, u, email) {
      OnlyAccountOf(rows, u);
    }
  }
}
