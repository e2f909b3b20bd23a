/** What one undisturbed bootstrap attempt answers, in which order it asks, and the rows that a change writes. */
module BootstrapOutcomes {
  import opened Prelude
  import opened Users
  import opened Bootstrap
  import Accounts

  /** Space, tab to carriage return, and the four separators from file to unit. */
  predicate IsBlank(c: char) {
    c in {' ', '\t', '\n', '\U{0B}', '\U{0C}', '\r', '\U{1C}', '\U{1D}', '\U{1E}', '\U{1F}'}
  }

  predicate AllBlank(s: string) {
    forall i | 0 <= i < |s| :: IsBlank(s[i])
  }

  lemma SpaceIsBlank(c: char)
    ensures IsSpace(c) <==> IsBlank(c)
  {
    assert IsBlank(c) <==> c as int in {9, 10, 11, 12, 13, 28, 29, 30, 31, 32};
  }

  /** What trimming leaves is the part from lo to hi, and everything outside it is white space. */
  ghost predicate TrimmedTo(s: string, lo: nat, hi: nat) {
    && lo <= hi <= |s| && Strip(s) == s[lo..hi]
    && (forall i | 0 <= i < lo :: IsSpace(s[i])) && (forall i | hi <= i < |s| :: IsSpace(s[i]))
  }

  lemma TrimmedInFront(s: string, lo: nat, hi: nat)
    requires s != [] && IsSpace(s[0]) && TrimmedTo(s[1..], lo, hi)
    ensures TrimmedTo(s, lo + 1, hi + 1)
  {
    assert s[1..][lo..hi] == s[lo + 1..hi + 1];
    forall i | 0 <= i < lo + 1
      ensures IsSpace(s[i])
    {
      assert i > 0 ==> s[1..][i - 1] == s[i];
    }
    forall i | hi + 1 <= i < |s|
      ensures IsSpace(s[i])
    {
      assert s[1..][i - 1] == s[i];
    }
  }

  lemma TrimmedBehind(s: string, lo: nat, hi: nat)
    requires s != [] && !IsSpace(s[0]) && IsSpace(s[|s| - 1]) && TrimmedTo(s[..|s| - 1], lo, hi)
    ensures TrimmedTo(s, lo, hi)
  {
    var t := s[..|s| - 1];
    assert t[lo..hi] == s[lo..hi];
    assert forall i | 0 <= i < |t| :: t[i] == s[i];
  }

  lemma {:induction false} StripBounds(s: string) returns (lo: nat, hi: nat)
    ensures TrimmedTo(s, lo, hi)
    decreases |s|
  {
    if s != [] && IsSpace(s[0]) {
      lo, hi := StripBounds(s[1..]);
      TrimmedInFront(s, lo, hi);
      lo, hi := lo + 1, hi + 1;
    } else if s != [] && IsSpace(s[|s| - 1]) {
      lo, hi := StripBounds(s[..|s| - 1]);
      TrimmedBehind(s, lo, hi);
    } else {
      lo, hi := 0, |s|;
    }
  }

  /** Trimming takes blank text off both ends, and nothing blank is left there. */
  lemma StripIs(s: string) returns (lo: nat, hi: nat)
    ensures lo <= hi <= |s| && Strip(s) == s[lo..hi] && AllBlank(s[..lo]) && AllBlank(s[hi..])
    ensures lo < hi ==> !IsBlank(s[lo]) && !IsBlank(s[hi - 1])
  {
    lo, hi := StripBounds(s);
    forall i | 0 <= i < |s|
      ensures IsSpace(s[i]) <==> IsBlank(s[i])
    {
      SpaceIsBlank(s[i]);
    }
    assert lo < hi ==> Strip(s)[0] == s[lo] && Strip(s)[|Strip(s)| - 1] == s[hi - 1];
  }

  /** The open accounts whose email is the given one, trimmed and compared without case. */
  function Addressed(users: Rows, email: string): set<Id> {
    set u | u in users && users[u].life == Open && Lower(users[u].email) == Lower(Strip(email))
  }

  /** Reason, control row and email are asked for before any account is. */
  lemma MalformedAttempts(t: Tables, a: Attempt)
    ensures
      var reason := Strip(a.reason);
      var (after, result) := Attempted(t, a);
      && (reason == "" ==> result == Error(NoReason))
      && (|reason| > 1024 ==> result == Error(LongReason))
      && (0 < |reason| <= 1024 && t.control == None ==> result == Error(NoControl))
      && (0 < |reason| <= 1024 && t.control.Some? && Strip(a.email) == "" ==> result == Error(NoEmail))
      && (!(0 < |reason| <= 1024 && t.control.Some? && Strip(a.email) != "") ==> after == t)
  {
  }

  ghost predicate WellFormed(t: Tables, a: Attempt) {
    0 < |Strip(a.reason)| <= 1024 && t.control.Some? && Strip(a.email) != ""
  }

  /** Then exactly one open account must have the email. */
  lemma TargetIsAmbiguous(t: Tables, a: Attempt)
    requires WellFormed(t, a) && |Addressed(t.users, a.email)| != 1
    ensures Attempted(t, a) == (t, Error(if Addressed(t.users, a.email) == {} then NoUser else SeveralUsers))
  {
    assert Matches(t.users, a.email) == Addressed(t.users, a.email);
  }

  /** For one account: the status, the confirmed id, the control row and other superusers decide, in this order. */
  lemma TargetDecides(t: Tables, a: Attempt, u: Id)
    requires WellFormed(t, a) && Addressed(t.users, a.email) == {u}
    ensures u in t.users
    ensures
      var row := t.users[u];
      var control := t.control.value;
      var active := "status" in row.meta && row.meta["status"] == Text("Active");
      var meta := row.meta["refresh_token_version" := Whole(Version(row) + 1)];
      Attempted(t, a) ==
        if !active then (t, Error(NotActive))
        else if u != a.expected then (t, Error(WrongUser))
        else if control.completed && control.user == Some(u) && row.superuser then (t, Unchanged(u))
        else if control.completed then (t, Error(AlreadyCompleted))
        else if exists v | v in t.users :: t.users[v].superuser then (t, Error(SuperuserExists))
        else
          (Tables(Some(Control(Some(u), true, Some("operator_cli"))),
             t.users[u := row.(superuser := true, meta := meta)],
             t.log + [Event(u, "superuser_bootstrapped", "operator_cli", Strip(a.reason), false, true)]),
           Changed(u))
  {
    assert u in Addressed(t.users, a.email);
    assert Matches(t.users, a.email) == Addressed(t.users, a.email);
    if v :| v in t.users && t.users[v].superuser {
      assert v in Superusers(t.users);
    }
  }

  /** As an account request, a whole bootstrap does what a change does to the user rows; no other promotion works. */
  lemma ChangeIsPromotion(t: Tables, a: Attempt, u: Id)
    ensures Attempted(t, a).1 == Changed(u) ==>
      Accounts.PromoteStep(t.users, u) == Accounts.AccountStep([Attempted(t, a).0.users], Accounts.Promoted(u))
    ensures
      var active := u in t.users && t.users[u].life == Open && "status" in t.users[u].meta
        && t.users[u].meta["status"] == Text("Active");
      if active then Accounts.PromoteStep(t.users, u).outcome == Accounts.Promoted(u)
      else
        && Accounts.PromoteStep(t.users, u) == Accounts.AccountStep([], Accounts.Failed(Accounts.BadRequest))
        && Attempted(t, a).1 != Changed(u)
  {
    ChangesIff(t, a, u);
    if Attempted(t, a).1 == Changed(u) {
      ChangeEffect(t, a, u);
      assert Attempted(t, a).0.users == t.users[u := Accounts.PromotedRow(t.users[u])];
    }
  }
}
