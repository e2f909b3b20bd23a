/** The user repositories: reads and writes of user rows through a database session. */
module UserRepository {
  import opened Prelude
  import opened Users
  import opened Store
  import opened Spec = Accounts

  /** The whole store at each commit of a user-table trail. */
  function OnDb(db: Db, trail: seq<Rows>): seq<Db> {
    seq(|trail|, i requires 0 <= i < |trail| => db.(users := trail[i]))
  }

  class UserRepository {
    const session: Session

    constructor (session: Session)
      ensures this.session == session
    {
      this.session := session;
    }

    ghost predicate Ready()
      reads session
    {
      session.Clean() && UniqueEmails(session.db.users)
    }

    /** Exactly these states of the user table were committed since the old state; no other table changed. */
    twostate predicate Committed(trail: seq<Rows>)
      reads session
    {
      && session.trail == old(session.trail) + OnDb(old(session.db), trail)
      && session.db == session.committed == old(session.db).(users := Spec.Latest(old(session.db.users), trail))
    }

    method CommitRow(u: Id, row: User)
      requires session.Clean()
      modifies session
      ensures Committed([old(session.db.users)[u := row]])
    {
      session.db := session.db.(users := session.db.users[u := row]);
      session.CommitWork();
    }

    /** The one way that the repositories write metadata: a single key of a single row. */
    method UpdateJsonField(u: Id, key: string, value: MetaValue)
      requires session.Clean() && u in session.db.users
      modifies session
      ensures Committed([WithMeta(old(session.db.users), u, key, value)])
    {
      var row := session.db.users[u];
      CommitRow(u, row.(meta := row.meta[key := value]));
    }

    method FindOpen(email: string) returns (u: Option<Id>)
      requires Ready()
      ensures u == OpenAccount(session.db.users, email)
    {
      var rows := session.db.users;
      if exists v | v in rows :: HasOpenEmail(rows, v, email) {
        var v :| v in rows && HasOpenEmail(rows, v, email);
        return Some(v);
      }
      u := None;
    }

    method FindAny(email: string) returns (u: Option<Id>)
      requires Ready()
      ensures u == AnyAccount(session.db.users, email)
    {
      var rows := session.db.users;
      if exists v | v in rows :: HasEmail(rows, v, email) {
        var v :| v in rows && HasEmail(rows, v, email);
        return Some(v);
      }
      u := None;
    }

    /** Inserts a row and then writes its status, in two commits; a refused insert leaves nothing behind. */
    method CreateUser(cfg: Config, id: Id, email: string, password: string) returns (o: Spec.Outcome)
      requires Ready() && password != ""
      modifies session
      ensures var step := RegisterStep(cfg, old(session.db.users), id, email, password);
        Committed(step.trail) && o == step.outcome
    {
      var existing := FindOpen(email);
      if existing.Some? {
        return Failed(Failure.Conflict);
      }
      var clash := FindAny(email);
      if clash.Some? || id in session.db.users {
        session.Rollback();
        return if clash.Some? then Failed(Failure.Conflict) else Failed(Crashed);
      }
      CommitRow(id, User(email, Hashed(password), false, Open, map[]));
      UpdateJsonField(id, STATUS_KEY, Text(FirstStatus(cfg)));
      o := Registered(id);
    }

    /** Checks a password; a legacy one that matches is hashed and committed on the way. */
    method CheckPassword(u: Id, password: string) returns (failure: Option<Failure>, ghost trail: seq<Rows>)
      requires Ready() && u in session.db.users
      modifies session
      ensures Committed(trail)
      ensures
        var rows := old(session.db.users);
        && trail ==
           (if rows[u].password == Legacy(password) && password != "" then [WithPassword(rows, u, password)] else [])
        && failure == (if rows[u].password.text != password then Some(Unauthorized)
                       else if rows[u].password == Legacy("") then Some(Crashed) else None)
    {
      trail := [];
      var row := session.db.users[u];
      if row.password.text != password {
        return Some(Unauthorized), [];
      }
      if row.password.Hashed? {
        return None, [];
      }
      if password == "" {
        return Some(Crashed), [];
      }
      trail := [WithPassword(session.db.users, u, password)];
      CommitRow(u, row.(password := Hashed(password)));
      failure := None;
    }

    method GetRefreshTokenVersion(u: Id) returns (version: Option<int>)
      ensures version == if IsOpenUser(session.db.users, u) then Some(Version(session.db.users[u])) else None
    {
      if !IsOpenUser(session.db.users, u) {
        return None;
      }
      var meta := session.db.users[u].meta;
      version := Some(if VERSION_KEY in meta && meta[VERSION_KEY].Whole? then meta[VERSION_KEY].number else 0);
    }

    method IncrementRefreshTokenVersion(u: Id) returns (version: Option<int>)
      requires session.Clean()
      modifies session
      ensures var rows := old(session.db.users);
        if IsOpenUser(rows, u) then Committed([Bump(rows, u)]) && version == Some(Version(rows[u]) + 1)
        else Committed([]) && version == None
    {
      version := GetRefreshTokenVersion(u);
      if version.None? {
        return;
      }
      version := Some(version.value + 1);
      UpdateJsonField(u, VERSION_KEY, Whole(version.value));
    }

    method DeleteUser(u: Id) returns (o: Spec.Outcome)
      requires session.Clean()
      modifies session
      ensures var step := DeleteUserStep(old(session.db.users), u);
        Committed(step.trail) && o == step.outcome
    {
      if !IsOpenUser(session.db.users, u) {
        return Failed(Failure.NotFound);
      }
      CommitRow(u, session.db.users[u].(life := Closed));
      o := Deleted(u);
    }

    /** The scan over the open accounts, in the order in which the database returns them. */
    method FindByResetToken(order: seq<Id>, method_: ResetMethod, token: string) returns (u: Option<Id>)
      ensures u == FirstHolder(session.db.users, order, method_, token)
    {
      var rows := session.db.users;
      for i := 0 to |order|
        invariant FirstHolder(rows, order, method_, token) == FirstHolder(rows, order[i..], method_, token)
      {
        var v := order[i];
        if IsOpenUser(rows, v) {
          var record := PendingReset(rows[v]);
          if record.Some? && record.value.method_ == method_ && record.value.token == token {
            return Some(v);
          }
        }
        assert order[i..][1..] == order[i + 1..];
      }
      u := None;
    }

    // Reset records ------------------------------------------------------------------------------

    method CreatePasswordResetRecord(email: string, record: ResetRecord) returns (u: Option<Id>)
      requires Ready()
      modifies session
      ensures var rows := old(session.db.users);
        && u == AnyAccount(rows, email)
        && Committed(if u.Some? then [WithMeta(rows, u.value, RESET_KEY, Reset(record))] else [])
    {
      u := FindAny(email);
      if u.Some? {
        UpdateJsonField(u.value, RESET_KEY, Reset(record));
      }
    }

    /** None when the email has no account. */
    method VerifyPasswordResetToken(email: string, method_: ResetMethod, token: string, now: int)
      returns (verdict: Option<bool>)
      requires Ready()
      ensures var u := AnyAccount(session.db.users, email);
        verdict == if u.None? then None else Some(ResetAllowed(session.db.users[u.value], method_, token, now))
    {
      var u := FindAny(email);
      if u.None? {
        return None;
      }
      var record := PendingReset(session.db.users[u.value]);
      if record.None? || record.value.method_ != method_ {
        return Some(false);
      }
      if record.value.token != token {
        return Some(false);
      }
      verdict := Some(record.value.expires > now);
    }

    /** Verifies, then sets the password and drops the record in one commit. */
    method SpendPasswordReset(email: string, method_: ResetMethod, token: string, password: string, now: int)
      returns (o: Spec.Outcome)
      requires Ready()
      modifies session
      ensures var step := SpendReset(old(session.db.users), email, method_, token, password, now);
        Committed(step.trail) && o == step.outcome
    {
      var verdict := VerifyPasswordResetToken(email, method_, token, now);
      if verdict.None? {
        return Failed(Failure.NotFound);
      }
      if !verdict.value {
        return Failed(Failure.BadRequest);
      }
      if password == "" {
        return Failed(Crashed);
      }
      var u := FindAny(email);
      var row := session.db.users[u.value];
      var meta := map k | k in row.meta && k != RESET_KEY :: row.meta[k];
      assert meta == row.meta - {RESET_KEY};
      CommitRow(u.value, row.(password := Hashed(password), meta := meta));
      o := PasswordReset(u.value, method_, token, now);
    }
  }
}
