/** The one-time superuser bootstrap: what one attempt does when nobody interferes. */
module Bootstrap {
  import opened Prelude
  import opened Users
  import Accounts

  type Rows = map<Id, User>

  const MAX_REASON_LENGTH := 1024
  const ACTION := "superuser_bootstrapped"
  const SOURCE := "operator_cli"

  /** The singleton control row. */
  datatype Control = Control(user: Option<Id>, completed: bool, method_: Option<string>)

  /** An audit record. */
  datatype Event = Event(target: Id, action: string, source: string, reason: string, previous: bool, resulting: bool)

  /** The tables that the bootstrap reads and writes; the control row is there once migrations have run. */
  datatype Tables = Tables(control: Option<Control>, users: Rows, log: seq<Event>)

  datatype Attempt = Attempt(email: string, reason: string, expected: Id)

  datatype Why =
    | NoReason | LongReason | NoControl | NoEmail | NoUser | SeveralUsers | NotActive | WrongUser
    | AlreadyCompleted | SuperuserExists | Crash

  datatype Result = Changed(user: Id) | Unchanged(user: Id) | Error(why: Why)

  /** Why a reason is rejected, if it is. */
  function ReasonFault(reason: string): Option<Why> {
    if Strip(reason) == "" then Some(NoReason)
    else if |Strip(reason)| > MAX_REASON_LENGTH then Some(LongReason)
    else None
  }

  function Matches(users: Rows, email: string): set<Id> {
    set u | u in users && users[u].life.Open? && Lower(users[u].email) == Lower(Strip(email))
  }

  datatype Found = Target(u: Id) | NoTarget(why: Why)

  /** The open account of an email, trimmed and compared without case; two of them are an error. */
  ghost function FindTarget(users: Rows, email: string): Found {
    var found := Matches(users, email);
    if Strip(email) == "" then NoTarget(NoEmail)
    else if found == {} then NoTarget(NoUser)
    else if |found| != 1 then NoTarget(SeveralUsers)
    else
      var u :| u in found;
      if Status(users[u]) != Some(ACTIVE) then NoTarget(NotActive) else Target(u)
  }

  function Superusers(users: Rows): set<Id> {
    set u | u in users && users[u].superuser
  }

  function EventFor(u: Id, reason: string): Event {
    Event(u, ACTION, SOURCE, Strip(reason), false, true)
  }

  /** The tables after the writes for target `u`, whose metadata was read as `meta`. */
  function Written(t: Tables, u: Id, meta: Metadata, reason: string): Tables
    requires u in t.users
  {
    Tables(
      Some(Control(Some(u), true, Some(SOURCE))),
      t.users[u := t.users[u].(superuser := true, meta := meta)],
      t.log + [EventFor(u, reason)])
  }

  /** The checks that follow the lock: the confirmed id, the completed control row, the existing superuser. */
  function Verdict(t: Tables, u: Id, expected: Id): Option<Result>
    requires t.control.Some? && u in t.users
  {
    if u != expected then Some(Error(WrongUser))
    else if t.control.value.completed then
      if t.control.value.user == Some(u) && t.users[u].superuser then Some(Unchanged(u))
      else Some(Error(AlreadyCompleted))
    else if Superusers(t.users) != {} then Some(Error(SuperuserExists))
    else None
  }

  /** One undisturbed attempt: the committed tables and the result. */
  ghost function Attempted(t: Tables, a: Attempt): (Tables, Result) {
    if ReasonFault(a.reason).Some? then (t, Error(ReasonFault(a.reason).value))
    else if t.control.None? then (t, Error(NoControl))
    else
      var found := FindTarget(t.users, a.email);
      if found.NoTarget? then (t, Error(found.why))
      else
        var verdict := Verdict(t, found.u, a.expected);
        if verdict.Some? then (t, verdict.value)
        else (Written(t, found.u, Accounts.Bumped(t.users[found.u]).meta, a.reason), Changed(found.u))
  }

  // What an attempt means ---------------------------------------------------------------------------

  lemma OnlyMember(s: set<Id>, u: Id)
    requires |s| == 1 && u in s
    ensures s == {u}
  {
    assert |s - {u}| == 0;
  }

  ghost predicate IsOnlyMatch(users: Rows, email: string, u: Id) {
    && u in users && users[u].life.Open? && Lower(users[u].email) == Lower(Strip(email))
    && (forall v | v in users && users[v].life.Open? && Lower(users[v].email) == Lower(Strip(email)) :: v == u)
  }

  /** The target is the one open account of that email, and it is active. */
  lemma TargetIff(users: Rows, email: string, u: Id)
    ensures FindTarget(users, email) == Target(u) <==>
      Strip(email) != "" && IsOnlyMatch(users, email, u) && Status(users[u]) == Some(ACTIVE)
  {
    var found := Matches(users, email);
    if FindTarget(users, email) == Target(u) {
      OnlyMember(found, u);
      assert forall v | v in users && users[v].life.Open? && Lower(users[v].email) == Lower(Strip(email)) :: v in found;
    }
    if IsOnlyMatch(users, email, u) {
      assert found == {u};
    }
  }

  /** When an attempt makes a superuser. */
  lemma ChangesIff(t: Tables, a: Attempt, u: Id)
    ensures Attempted(t, a).1 == Changed(u) <==>
      && 0 < |Strip(a.reason)| <= MAX_REASON_LENGTH
      && t.control.Some? && !t.control.value.completed && Superusers(t.users) == {}
      && Strip(a.email) != "" && IsOnlyMatch(t.users, a.email, u) && Status(t.users[u]) == Some(ACTIVE)
      && u == a.expected
  {
    TargetIff(t.users, a.email, u);
    var found := FindTarget(t.users, a.email);
    if found.Target? {
      TargetIff(t.users, a.email, found.u);
    }
  }

  /** Only a change changes anything. */
  lemma FailuresLeaveNoTrace(t: Tables, a: Attempt)
    ensures !Attempted(t, a).1.Changed? ==> Attempted(t, a).0 == t
  {
  }

  /** A change makes one superuser, ends that user's sessions, completes the control row and logs it. */
  lemma ChangeEffect(t: Tables, a: Attempt, u: Id)
    requires Attempted(t, a).1 == Changed(u)
    ensures
      var after := Attempted(t, a).0;
      && u in t.users && after.users.Keys == t.users.Keys
      && Superusers(after.users) == {u} && Version(after.users[u]) == Version(t.users[u]) + 1
      && after.control == Some(Control(Some(u), true, Some(SOURCE)))
      && after.log == t.log + [EventFor(u, a.reason)]
      && after.users[u] == Accounts.PromotedRow(t.users[u])
      && (forall v | v in t.users && v != u :: after.users[v] == t.users[v])
  {
    ChangesIff(t, a, u);
    var after := Attempted(t, a).0;
    assert forall v | v in t.users :: t.users[v].superuser ==> v in Superusers(t.users);
  }

  /** Repeating the attempt that succeeded reports no change and leaves everything as it is. */
  lemma RepeatIsHarmless(t: Tables, a: Attempt, u: Id)
    requires Attempted(t, a).1 == Changed(u)
    ensures Attempted(Attempted(t, a).0, a) == (Attempted(t, a).0, Unchanged(u))
  {
    ChangesIff(t, a, u);
    ChangeEffect(t, a, u);
    var after := Attempted(t, a).0;
    assert Status(after.users[u]) == Status(t.users[u]);
    assert IsOnlyMatch(after.users, a.email, u);
    TargetIff(after.users, a.email, u);
  }

  /** After any change every later attempt is refused or reports no change. */
  lemma OnceOnly(t: Tables, a: Attempt, b: Attempt)
    requires Attempted(t, a).1.Changed?
    ensures !Attempted(Attempted(t, a).0, b).1.Changed?
  {
  }

  // The service -----------------------------------------------------------------------------------------

  class SuperuserBootstrapService {
    var tables: Tables
    var committed: Tables

    constructor (tables: Tables)
      ensures this.tables == committed == tables
    {
      this.tables, committed := tables, tables;
    }

    method Rollback()
      modifies this
      ensures tables == committed == old(committed)
    {
      tables := committed;
    }

    method ValidateReason(reason: string) returns (fault: Option<Why>)
      ensures fault.None? <==> 0 < |Strip(reason)| <= MAX_REASON_LENGTH
      ensures fault == Some(NoReason) <==> Strip(reason) == ""
      ensures fault.Some? ==> fault == Some(NoReason) || fault == Some(LongReason)
    {
      var normalized := Strip(reason);
      if normalized == "" {
        return Some(NoReason);
      }
      if |normalized| > MAX_REASON_LENGTH {
        return Some(LongReason);
      }
      fault := None;
    }

    /** The account of a candidate, or why there is none. */
    method GetTarget(email: string) returns (found: Found)
      ensures found == FindTarget(tables.users, email)
    {
      if Strip(email) == "" {
        return NoTarget(NoEmail);
      }
      var users := tables.users;
      var rows := Matches(users, email);
      if rows == {} {
        return NoTarget(NoUser);
      }
      if |rows| != 1 {
        return NoTarget(SeveralUsers);
      }
      var u :| u in rows;
      OnlyMember(rows, u);
      if Status(users[u]) != Some(ACTIVE) {
        return NoTarget(NotActive);
      }
      found := Target(u);
    }

    method Bootstrap(a: Attempt) returns (result: Result)
      requires tables == committed
      modifies this
      ensures (committed, result) == Attempted(old(committed), a) && tables == committed
    {
      var fault := ValidateReason(a.reason);
      if fault.Some? {
        return Error(fault.value);
      }
      if tables.control.None? {
        Rollback();
        return Error(NoControl);
      }
      var found := GetTarget(a.email);
      if found.NoTarget? {
        Rollback();
        return Error(found.why);
      }
      TargetIff(tables.users, a.email, found.u);
      var verdict := Judge(found.u, a.expected);
      if verdict.Some? {
        Rollback();
        return verdict.value;
      }
      Promote(found.u, a.reason);
      committed := tables;
      result := Changed(found.u);
    }

    /** The checks under the lock. */
    method Judge(target: Id, expected: Id) returns (verdict: Option<Result>)
      requires tables.control.Some? && target in tables.users
      ensures verdict == Verdict(tables, target, expected)
    {
      var control := tables.control.value;
      if target != expected {
        return Some(Error(WrongUser));
      }
      if control.completed {
        if control.user == Some(target) && tables.users[target].superuser {
          return Some(Unchanged(target));
        }
        return Some(Error(AlreadyCompleted));
      }
      if exists u | u in tables.users :: tables.users[u].superuser {
        ghost var u :| u in tables.users && tables.users[u].superuser;
        assert u in Superusers(tables.users);
        return Some(Error(SuperuserExists));
      }
      verdict := None;
    }

    /** The writes, not yet committed: the user row, the control row and the audit record. */
    method Promote(target: Id, reason: string)
      requires target in tables.users
      modifies `tables
      ensures tables == Written(old(tables), target, Accounts.Bumped(old(tables).users[target]).meta, reason)
    {
      var row := tables.users[target];
      var meta := row.meta[VERSION_KEY := Whole(Version(row) + 1)];
      tables := tables.(users := tables.users[target := row.(superuser := true, meta := meta)]);
      tables := tables.(control := Some(Control(Some(target), true, Some(SOURCE))));
      tables := tables.(log := tables.log + [Event(target, ACTION, SOURCE, Strip(reason), false, true)]);
    }
  }
}
