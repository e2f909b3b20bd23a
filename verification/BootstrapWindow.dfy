/**
 * The window between a bootstrap's read of its target and its write: what account requests in between lose,
 * and when the bootstrap ends every session of the new superuser.
 */
module BootstrapWindow {
  import opened Prelude
  import opened Users
  import opened Bootstrap
  import opened BootstrapRuns
  import Accounts

  /** The attempt reads its target in step a and reports its change in step b. */
  ghost predicate Window(ws: seq<World>, ms: seq<Move>, i: nat, a: nat, b: nat, u: Id) {
    && a < b < |ms| && |ws| == |ms| + 1
    && ms[a] == Proceed(i) && ms[b] == Proceed(i)
    && (forall n | 0 <= n < |ws| :: i < |ws[n].phases|)
    && ws[a].phases[i].Locked? && ws[a + 1].phases[i].Confirmed?
    && ws[b].phases[i].Writing? && ws[b].phases[i].u == u && ws[b + 1].phases[i] == Finished(Changed(u))
  }

  /** The phases that an attempt goes through once it has read this row. */
  predicate HasRead(phase: Phase, u: Id, row: User) {
    || phase == Confirmed(u, row)
    || phase == Writing(u, Accounts.Bumped(row).meta)
    || phase.Finished?
  }

  lemma StillHasRead(w: World, m: Move, i: nat, u: Id, row: User)
    requires |w.attempts| == |w.phases| && Enabled(w, m) && i < |w.phases| && HasRead(w.phases[i], u, row)
    ensures i < |Next(w, m).phases| && HasRead(Next(w, m).phases[i], u, row)
  {
  }

  lemma {:induction false} KeepsWhatItRead(ws: seq<World>, ms: seq<Move>, i: nat, n: nat, m: nat, u: Id, row: User)
    requires IsRun(ws, ms) && n <= m < |ws|
    requires i < |ws[n].phases| && HasRead(ws[n].phases[i], u, row)
    ensures i < |ws[m].phases| && HasRead(ws[m].phases[i], u, row)
    decreases m
  {
    if n < m {
      KeepsWhatItRead(ws, ms, i, n, m - 1, u, row);
      assert StepAt(ws, ms, m - 1);
      StillHasRead(ws[m - 1], ms[m - 1], i, u, row);
    }
  }

  lemma ReadStep(w: World, i: nat)
    requires |w.attempts| == |w.phases| && Enabled(w, Proceed(i)) && w.phases[i].Locked?
    requires Next(w, Proceed(i)).phases[i].Confirmed?
    ensures
      var phase := Next(w, Proceed(i)).phases[i];
      phase.u in w.tables.users && phase.row == w.tables.users[phase.u]
  {
  }

  lemma WriteStep(w: World, i: nat, u: Id)
    requires |w.attempts| == |w.phases| && Enabled(w, Proceed(i)) && w.phases[i].Writing?
    requires Next(w, Proceed(i)).phases[i] == Finished(Changed(u))
    ensures u == w.phases[i].u && u in w.tables.users && u in Next(w, Proceed(i)).tables.users
    ensures Next(w, Proceed(i)).tables.users ==
      w.tables.users[u := w.tables.users[u].(superuser := true, meta := w.phases[i].meta)]
  {
  }

  lemma ReadAt(ws: seq<World>, ms: seq<Move>, i: nat, a: nat) returns (v: Id)
    requires IsRun(ws, ms) && a < |ms| && ms[a] == Proceed(i)
    requires i < |ws[a].phases| && ws[a].phases[i].Locked?
    requires i < |ws[a + 1].phases| && ws[a + 1].phases[i].Confirmed?
    ensures v in ws[a].tables.users && ws[a + 1].phases[i] == Confirmed(v, ws[a].tables.users[v])
  {
    assert StepAt(ws, ms, a);
    ReadStep(ws[a], i);
    v := ws[a + 1].phases[i].u;
  }

  lemma WriteAt(ws: seq<World>, ms: seq<Move>, i: nat, b: nat, u: Id)
    requires IsRun(ws, ms) && b < |ms| && ms[b] == Proceed(i)
    requires i < |ws[b].phases| && ws[b].phases[i].Writing?
    requires i < |ws[b + 1].phases| && ws[b + 1].phases[i] == Finished(Changed(u))
    ensures u == ws[b].phases[i].u && u in ws[b].tables.users && u in ws[b + 1].tables.users
    ensures ws[b + 1].tables.users ==
      ws[b].tables.users[u := ws[b].tables.users[u].(superuser := true, meta := ws[b].phases[i].meta)]
  {
    assert StepAt(ws, ms, b);
    WriteStep(ws[b], i, u);
  }

  /**
   * What a change writes: the metadata as it was read, with the next version, over whatever the row holds by
   * then.  Every metadata write of the window is lost; the other columns keep their latest values.
   */
  lemma ChangeWritesWhatItRead(ws: seq<World>, ms: seq<Move>, i: nat, a: nat, b: nat, u: Id)
    requires IsRun(ws, ms) && Window(ws, ms, i, a, b, u)
    ensures u in ws[a].tables.users && u in ws[b].tables.users && u in ws[b + 1].tables.users
    ensures
      var written := ws[b].tables.users[u].(superuser := true, meta := Accounts.Bumped(ws[a].tables.users[u]).meta);
      ws[b + 1].tables.users == ws[b].tables.users[u := written]
    ensures Version(ws[b + 1].tables.users[u]) == Version(ws[a].tables.users[u]) + 1
  {
    var v := ReadAt(ws, ms, i, a);
    KeepsWhatItRead(ws, ms, i, a + 1, b, v, ws[a].tables.users[v]);
    WriteAt(ws, ms, i, b, u);
  }

  // Account requests in between ---------------------------------------------------------------------------

  /** The rest of the service is one account request at a time. */
  ghost predicate ByRequest(cfg: Accounts.Config, before: Rows, after: Rows) {
    exists op: Accounts.AccountOp :: !op.Promote? && after == Accounts.After(cfg, before, op)
  }

  ghost predicate ServiceRun(cfg: Accounts.Config, ws: seq<World>, ms: seq<Move>) {
    && IsRun(ws, ms)
    && forall n | 0 <= n < |ms| && ms[n].Environment? :: ByRequest(cfg, ws[n].tables.users, ms[n].users)
  }

  /** One step advances a version by at most one. */
  ghost predicate SmallStep(before: Rows, after: Rows, u: Id) {
    u in before ==> u in after && Version(before[u]) <= Version(after[u]) <= Version(before[u]) + 1
  }

  lemma RequestIsSmallStep(cfg: Accounts.Config, before: Rows, after: Rows, u: Id)
    requires ByRequest(cfg, before, after)
    ensures SmallStep(before, after, u)
  {
    if u in before {
      var op: Accounts.AccountOp :| !op.Promote? && after == Accounts.After(cfg, before, op);
      Accounts.EachWriterKeepsToItsKey(cfg, before, op, u);
    }
  }

  /** As long as nothing is complete, no attempt has written. */
  lemma NobodyWrote(ws: seq<World>, ms: seq<Move>, n: nat, b: nat)
    requires IsRun(ws, ms) && n < b < |ws| && Pristine(ws[b].tables)
    ensures !ms[n].Environment? ==> ws[n + 1].tables == ws[n].tables
  {
    assert StepAt(ws, ms, n);
    if !ms[n].Environment? && ws[n + 1].tables != ws[n].tables {
      OnlyAChangeWrites(ws[n], ms[n]);
      var v := ws[n + 1].phases[ms[n].i].result.user;
      ChangeIsRecorded(ws, ms, n + 1, ms[n].i, v);
      CompletionIsForever(ws, ms, n + 1, b, v);
    }
  }

  /** No attempt writes between two states. */
  ghost predicate Quiet(ws: seq<World>, ms: seq<Move>, lo: nat, hi: nat)
    requires |ws| == |ms| + 1 && hi < |ws|
  {
    forall n | lo <= n < hi && !ms[n].Environment? :: ws[n + 1].tables == ws[n].tables
  }

  lemma QuietBefore(ws: seq<World>, ms: seq<Move>, b: nat)
    requires IsRun(ws, ms) && b < |ws| && Pristine(ws[b].tables)
    ensures Quiet(ws, ms, 0, b)
  {
    forall n | 0 <= n < b && !ms[n].Environment?
      ensures ws[n + 1].tables == ws[n].tables
    {
      NobodyWrote(ws, ms, n, b);
    }
  }

  /** Once it is complete, no attempt writes again. */
  lemma QuietAfter(ws: seq<World>, ms: seq<Move>, i: nat, b: nat, u: Id)
    requires IsRun(ws, ms) && b < |ws| && i < |ws[b].phases| && ws[b].phases[i] == Finished(Changed(u))
    ensures Quiet(ws, ms, b, |ws| - 1)
  {
    ChangeIsRecorded(ws, ms, b, i, u);
    forall n | b <= n < |ws| - 1 && !ms[n].Environment?
      ensures ws[n + 1].tables == ws[n].tables
    {
      assert StepAt(ws, ms, n);
      CompletionIsForever(ws, ms, b, n, u);
      CompletionIsForever(ws, ms, b, n + 1, u);
      OnlyAChangeWrites(ws[n], ms[n]);
    }
  }

  ghost predicate SmallSteps(ws: seq<World>, lo: nat, hi: nat, u: Id)
    requires hi < |ws|
  {
    forall n | lo <= n < hi :: SmallStep(ws[n].tables.users, ws[n + 1].tables.users, u)
  }

  lemma QuietStepsAreSmall(cfg: Accounts.Config, ws: seq<World>, ms: seq<Move>, lo: nat, hi: nat, u: Id)
    requires ServiceRun(cfg, ws, ms) && hi < |ws| && Quiet(ws, ms, lo, hi)
    ensures SmallSteps(ws, lo, hi, u)
  {
    forall n | lo <= n < hi
      ensures SmallStep(ws[n].tables.users, ws[n + 1].tables.users, u)
    {
      assert StepAt(ws, ms, n);
      if ms[n].Environment? {
        RequestIsSmallStep(cfg, ws[n].tables.users, ms[n].users, u);
      }
    }
  }

  /** While no attempt writes, versions only grow. */
  lemma {:induction false} VersionsGrow(ws: seq<World>, lo: nat, hi: nat, n: nat, m: nat, u: Id)
    requires lo <= n <= m <= hi < |ws| && SmallSteps(ws, lo, hi, u) && u in ws[n].tables.users
    ensures u in ws[m].tables.users && Version(ws[n].tables.users[u]) <= Version(ws[m].tables.users[u])
    decreases m
  {
    if n < m {
      VersionsGrow(ws, lo, hi, n, m - 1, u);
      assert SmallStep(ws[m - 1].tables.users, ws[m - 1 + 1].tables.users, u);
    }
  }

  /** They pass through every value on the way. */
  lemma {:induction false} VersionIsPassed(ws: seq<World>, lo: nat, hi: nat, n: nat, m: nat, u: Id, version: int)
    returns (k: nat)
    requires lo <= n <= m <= hi < |ws| && SmallSteps(ws, lo, hi, u)
    requires u in ws[n].tables.users && u in ws[m].tables.users
    requires Version(ws[n].tables.users[u]) <= version <= Version(ws[m].tables.users[u])
    ensures n <= k <= m && u in ws[k].tables.users && Version(ws[k].tables.users[u]) == version
    decreases m
  {
    if Version(ws[m].tables.users[u]) == version {
      k := m;
    } else {
      VersionsGrow(ws, lo, hi, n, m - 1, u);
      assert SmallStep(ws[m - 1].tables.users, ws[m - 1 + 1].tables.users, u);
      k := VersionIsPassed(ws, lo, hi, n, m - 1, u, version);
    }
  }

  lemma WriterIsPristine(ws: seq<World>, ms: seq<Move>, i: nat, b: nat)
    requires IsRun(ws, ms) && b < |ws| && i < |ws[b].phases| && ws[b].phases[i].Writing?
    ensures Pristine(ws[b].tables)
  {
    EveryStateSatisfiesInv(ws, ms, b);
  }

  /** No version that was current up to the write is ever current after it: every earlier token has ended for good. */
  ghost predicate EndsAllSessions(ws: seq<World>, b: nat, u: Id) {
    forall n, m | 0 <= n <= b < m < |ws| && u in ws[n].tables.users && u in ws[m].tables.users ::
      Version(ws[n].tables.users[u]) != Version(ws[m].tables.users[u])
  }

  /** No login or revocation of the user falls between the read and the write. */
  ghost predicate NoVersionWrite(ws: seq<World>, a: nat, b: nat, u: Id)
    requires a <= b < |ws|
    requires forall n | a <= n <= b :: u in ws[n].tables.users
  {
    forall n | a <= n < b :: Version(ws[n + 1].tables.users[u]) == Version(ws[n].tables.users[u])
  }

  lemma {:induction false} NoWriteMeansSame(ws: seq<World>, a: nat, b: nat, u: Id)
    requires a <= b < |ws| && forall n | a <= n <= b :: u in ws[n].tables.users
    requires NoVersionWrite(ws, a, b, u)
    ensures Version(ws[a].tables.users[u]) == Version(ws[b].tables.users[u])
    decreases b
  {
    if a < b {
      NoWriteMeansSame(ws, a, b - 1, u);
    }
  }

  lemma StaysInTable(ws: seq<World>, lo: nat, hi: nat, a: nat, u: Id)
    requires lo <= a <= hi < |ws| && SmallSteps(ws, lo, hi, u) && u in ws[a].tables.users
    ensures forall n | a <= n <= hi :: u in ws[n].tables.users
  {
    forall n | a <= n <= hi
      ensures u in ws[n].tables.users
    {
      VersionsGrow(ws, lo, hi, a, n, u);
    }
  }

  /** Equal versions at both ends of the window mean that none was written in between. */
  lemma NoVersionWriteIff(ws: seq<World>, a: nat, b: nat, u: Id)
    requires a <= b < |ws| && SmallSteps(ws, 0, b, u) && u in ws[a].tables.users
    ensures forall n | a <= n <= b :: u in ws[n].tables.users
    ensures NoVersionWrite(ws, a, b, u) <==> Version(ws[a].tables.users[u]) == Version(ws[b].tables.users[u])
  {
    StaysInTable(ws, 0, b, a, u);
    if Version(ws[a].tables.users[u]) == Version(ws[b].tables.users[u]) {
      forall n | a <= n < b
        ensures Version(ws[n + 1].tables.users[u]) == Version(ws[n].tables.users[u])
      {
        VersionsGrow(ws, 0, b, a, n, u);
        VersionsGrow(ws, 0, b, n, n + 1, u);
        VersionsGrow(ws, 0, b, n + 1, b, u);
      }
    } else if NoVersionWrite(ws, a, b, u) {
      NoWriteMeansSame(ws, a, b, u);
    }
  }

  /** Nobody else writes before or after the change: all other steps are small. */
  lemma OtherStepsAreSmall(cfg: Accounts.Config, ws: seq<World>, ms: seq<Move>, i: nat, a: nat, b: nat, u: Id)
    requires ServiceRun(cfg, ws, ms) && Window(ws, ms, i, a, b, u)
    ensures SmallSteps(ws, 0, b, u) && SmallSteps(ws, b + 1, |ws| - 1, u)
  {
    WriterIsPristine(ws, ms, i, b);
    QuietBefore(ws, ms, b);
    QuietAfter(ws, ms, i, b + 1, u);
    QuietStepsAreSmall(cfg, ws, ms, 0, b, u);
    QuietStepsAreSmall(cfg, ws, ms, b + 1, |ws| - 1, u);
  }

  /** Without a version write in the window, every version after the write is above every one before it. */
  lemma LaterIsAbove(cfg: Accounts.Config, ws: seq<World>, ms: seq<Move>, i: nat, a: nat, b: nat, u: Id, n: nat, m: nat)
    requires ServiceRun(cfg, ws, ms) && Window(ws, ms, i, a, b, u)
    requires u in ws[a].tables.users && u in ws[b].tables.users
    requires Version(ws[b].tables.users[u]) == Version(ws[a].tables.users[u])
    requires n <= b < m < |ws| && u in ws[n].tables.users && u in ws[m].tables.users
    ensures Version(ws[n].tables.users[u]) < Version(ws[m].tables.users[u])
  {
    ChangeWritesWhatItRead(ws, ms, i, a, b, u);
    OtherStepsAreSmall(cfg, ws, ms, i, a, b, u);
    VersionsGrow(ws, 0, b, n, b, u);
    VersionsGrow(ws, b + 1, |ws| - 1, b + 1, m, u);
  }

  /**
   * A change ends every session of its user for good exactly if no login or revocation of that user falls between
   * the read of the row and the write; otherwise some version of the window is current again right afterwards.
   */
  lemma ChangeEndsSessionsIff(cfg: Accounts.Config, ws: seq<World>, ms: seq<Move>, i: nat, a: nat, b: nat, u: Id)
    requires ServiceRun(cfg, ws, ms) && Window(ws, ms, i, a, b, u)
    ensures forall n | a <= n < |ws| :: u in ws[n].tables.users
    ensures EndsAllSessions(ws, b, u) <==> NoVersionWrite(ws, a, b, u)
  {
    ChangeWritesWhatItRead(ws, ms, i, a, b, u);
    OtherStepsAreSmall(cfg, ws, ms, i, a, b, u);
    StaysInTable(ws, b + 1, |ws| - 1, b + 1, u);
    NoVersionWriteIff(ws, a, b, u);
    if Version(ws[b].tables.users[u]) == Version(ws[a].tables.users[u]) {
      forall n, m | 0 <= n <= b < m < |ws| && u in ws[n].tables.users && u in ws[m].tables.users
        ensures Version(ws[n].tables.users[u]) != Version(ws[m].tables.users[u])
      {
        LaterIsAbove(cfg, ws, ms, i, a, b, u, n, m);
      }
    } else {
      VersionsGrow(ws, 0, b, a, b, u);
      var k := VersionIsPassed(ws, 0, b, a, b, u, Version(ws[b + 1].tables.users[u]));
    }
  }

  /** A version that the change takes back is handed out again as soon as later logins reach it. */
  lemma LostVersionReturns(cfg: Accounts.Config, ws: seq<World>, ms: seq<Move>, i: nat, a: nat, b: nat, u: Id, m: nat,
                           version: int)
    returns (n: nat, k: nat)
    requires ServiceRun(cfg, ws, ms) && Window(ws, ms, i, a, b, u)
    requires b < m < |ws| && u in ws[b].tables.users && u in ws[b + 1].tables.users && u in ws[m].tables.users
    requires Version(ws[b + 1].tables.users[u]) < version <= Version(ws[b].tables.users[u])
    requires version <= Version(ws[m].tables.users[u])
    ensures a <= n <= b && u in ws[n].tables.users && Version(ws[n].tables.users[u]) == version
    ensures b + 1 < k <= m && u in ws[k].tables.users && Version(ws[k].tables.users[u]) == version
  {
    ChangeWritesWhatItRead(ws, ms, i, a, b, u);
    OtherStepsAreSmall(cfg, ws, ms, i, a, b, u);
    n := VersionIsPassed(ws, 0, b, a, b, u, version);
    k := VersionIsPassed(ws, b + 1, |ws| - 1, b + 1, m, u, version);
  }

  /** After a window with more than one version write, the change puts the version back. */
  lemma ChangeLowersVersionIff(cfg: Accounts.Config, ws: seq<World>, ms: seq<Move>, i: nat, a: nat, b: nat, u: Id)
    requires ServiceRun(cfg, ws, ms) && Window(ws, ms, i, a, b, u)
    ensures u in ws[a].tables.users && u in ws[b].tables.users && u in ws[b + 1].tables.users
    ensures Version(ws[b + 1].tables.users[u]) < Version(ws[b].tables.users[u]) <==>
      Version(ws[b].tables.users[u]) >= Version(ws[a].tables.users[u]) + 2
  {
    ChangeWritesWhatItRead(ws, ms, i, a, b, u);
  }

  // A window that is hit --------------------------------------------------------------------------------------

  /** An account that logs in with this password, hashed already. */
  ghost predicate CanLogIn(users: Rows, u: Id, password: string) {
    && UniqueEmails(users) && u in users && users[u].life.Open? && users[u].password == Hashed(password)
    && Status(users[u]) == Some(ACTIVE)
  }

  lemma LoginAdvances(cfg: Accounts.Config, users: Rows, u: Id, password: string)
    requires CanLogIn(users, u, password)
    ensures Accounts.After(cfg, users, Accounts.Login(users[u].email, password)) == Accounts.Bump(users, u)
    ensures ByRequest(cfg, users, Accounts.Bump(users, u)) && KeepsSuperusers(users, Accounts.Bump(users, u))
    ensures CanLogIn(Accounts.Bump(users, u), u, password) && Accounts.Bump(users, u)[u].email == users[u].email
  {
    var login := Accounts.Login(users[u].email, password);
    Accounts.LoginWorksIff(cfg, users, users[u].email, password, u, Version(users[u]) + 1);
    assert Accounts.After(cfg, users, login) == Accounts.Bump(users, u);
  }

  /** An attempt that would change its target takes four steps to the pending write. */
  lemma OpeningSteps(w: World, i: nat, u: Id)
    requires Initial(w) && i < |w.phases| && Attempted(w.tables, w.attempts[i]).1 == Changed(u)
    ensures u in w.tables.users
    ensures
      var row := w.tables.users[u];
      && StepTo(w, Proceed(i), To(w, i, Waiting))
      && StepTo(To(w, i, Waiting), Proceed(i), To(w, i, Locked))
      && StepTo(To(w, i, Locked), Proceed(i), To(w, i, Confirmed(u, row)))
      && StepTo(To(w, i, Confirmed(u, row)), Proceed(i), To(w, i, Writing(u, Accounts.Bumped(row).meta)))
  {
    ChangesIff(w.tables, w.attempts[i], u);
    TargetIff(w.tables.users, w.attempts[i].email, u);
  }

  ghost function WithUsers(w: World, users: Rows): World {
    w.(tables := w.tables.(users := users))
  }

  /** Two requests may then be served, and the write follows. */
  lemma ClosingSteps(pending: World, i: nat, u: Id, once: Rows, twice: Rows)
    requires |pending.attempts| == |pending.phases| && i < |pending.phases|
    requires pending.phases[i].Writing? && pending.phases[i].u == u
    requires KeepsSuperusers(pending.tables.users, once) && KeepsSuperusers(once, twice) && u in twice
    ensures
      var late := WithUsers(pending, twice);
      && StepTo(pending, Environment(once), WithUsers(pending, once))
      && StepTo(WithUsers(pending, once), Environment(twice), late)
      && StepTo(late, Proceed(i), Next(late, Proceed(i)))
      && Next(late, Proceed(i)).phases == pending.phases[i := Finished(Changed(u))]
  {
  }

  /** The attempt reads its target in step 2, two account requests follow, and step 6 writes. */
  function Moves(i: nat, once: Rows, twice: Rows): seq<Move> {
    [Proceed(i), Proceed(i), Proceed(i), Proceed(i), Environment(once), Environment(twice), Proceed(i)]
  }

  lemma OneMoreMove(ws: seq<World>, ms: seq<Move>, m: Move, next: World)
    requires IsRun(ws, ms) && StepTo(ws[|ms|], m, next)
    ensures IsRun(ws + [next], ms + [m])
  {
    forall n | 0 <= n <= |ms|
      ensures StepAt(ws + [next], ms + [m], n)
    {
      if n < |ms| {
        assert StepAt(ws, ms, n);
      }
    }
  }

  lemma ClosingRun(ws: seq<World>, ms: seq<Move>, i: nat, once: Rows, twice: Rows, last: World)
    requires IsRun(ws, ms)
    requires
      var pending := ws[|ms|];
      && StepTo(pending, Environment(once), WithUsers(pending, once))
      && StepTo(WithUsers(pending, once), Environment(twice), WithUsers(pending, twice))
      && StepTo(WithUsers(pending, twice), Proceed(i), last)
    ensures
      var pending := ws[|ms|];
      IsRun(ws + [WithUsers(pending, once), WithUsers(pending, twice), last],
        ms + [Environment(once), Environment(twice), Proceed(i)])
  {
    var first, second := WithUsers(ws[|ms|], once), WithUsers(ws[|ms|], twice);
    OneMoreMove(ws, ms, Environment(once), first);
    OneMoreMove(ws + [first], ms + [Environment(once)], Environment(twice), second);
    OneMoreMove(ws + [first] + [second], ms + [Environment(once)] + [Environment(twice)], Proceed(i), last);
    assert ws + [first, second, last] == ws + [first] + [second] + [last];
    assert ms + [Environment(once), Environment(twice), Proceed(i)] ==
      ms + [Environment(once)] + [Environment(twice)] + [Proceed(i)];
  }

  lemma WindowOf(opening: seq<World>, closing: seq<World>, i: nat, u: Id, once: Rows, twice: Rows)
    requires |opening| == 5 && |closing| == 3
    requires (forall n | 0 <= n < 5 :: i < |opening[n].phases|) && (forall n | 0 <= n < 3 :: i < |closing[n].phases|)
    requires opening[2].phases[i].Locked? && opening[3].phases[i].Confirmed?
    requires closing[1].phases[i].Writing? && closing[1].phases[i].u == u
    requires closing[2].phases[i] == Finished(Changed(u))
    ensures Window(opening + closing, Moves(i, once, twice), i, 2, 6, u)
  {
  }

  /** A run of four steps that left attempt i about to write, with the tables as they were. */
  ghost predicate Opened(ws: seq<World>, i: nat, u: Id) {
    && |ws| == 5 && IsRun(ws, [Proceed(i), Proceed(i), Proceed(i), Proceed(i)])
    && |ws[4].attempts| == |ws[4].phases| && (forall n | 0 <= n < 5 :: i < |ws[n].phases|)
    && ws[2].phases[i].Locked? && ws[3].phases[i].Confirmed?
    && ws[4].phases[i].Writing? && ws[4].phases[i].u == u
    && ws[2].tables == ws[4].tables == ws[0].tables
  }

  lemma TwoMoreMoves(ws: seq<World>, ms: seq<Move>, m: Move, w1: World, w2: World)
    requires IsRun(ws, ms) && StepTo(ws[|ms|], m, w1) && StepTo(w1, m, w2)
    ensures IsRun(ws + [w1, w2], ms + [m, m])
  {
    OneMoreMove(ws, ms, m, w1);
    OneMoreMove(ws + [w1], ms + [m], m, w2);
    assert ws + [w1, w2] == ws + [w1] + [w2] && ms + [m, m] == ms + [m] + [m];
  }

  lemma FourMoves(w0: World, w1: World, w2: World, w3: World, w4: World, m: Move)
    requires Initial(w0) && StepTo(w0, m, w1) && StepTo(w1, m, w2) && StepTo(w2, m, w3) && StepTo(w3, m, w4)
    ensures IsRun([w0, w1, w2, w3, w4], [m, m, m, m])
  {
    TwoMoreMoves([w0], [], m, w1, w2);
    TwoMoreMoves([w0] + [w1, w2], [] + [m, m], m, w3, w4);
    assert [w0, w1, w2, w3, w4] == [w0] + [w1, w2] + [w3, w4] && [m, m, m, m] == [] + [m, m] + [m, m];
  }

  lemma OpenedRun(w: World, i: nat, u: Id) returns (ws: seq<World>)
    requires Initial(w) && i < |w.phases| && Attempted(w.tables, w.attempts[i]).1 == Changed(u)
    ensures Opened(ws, i, u) && ws[0] == w
  {
    OpeningSteps(w, i, u);
    var row := w.tables.users[u];
    var waiting, locked, confirmed := To(w, i, Waiting), To(w, i, Locked), To(w, i, Confirmed(u, row));
    var writing := To(w, i, Writing(u, Accounts.Bumped(row).meta));
    FourMoves(w, waiting, locked, confirmed, writing, Proceed(i));
    ws := [w, waiting, locked, confirmed, writing];
  }

  /** Two requests and the write after it. */
  lemma Interrupted(opening: seq<World>, i: nat, u: Id, once: Rows, twice: Rows) returns (ws: seq<World>)
    requires Opened(opening, i, u)
    requires KeepsSuperusers(opening[4].tables.users, once) && KeepsSuperusers(once, twice) && u in twice
    ensures |ws| == 8 && ws[..5] == opening && ws[5].tables.users == once && ws[6].tables.users == twice
    ensures IsRun(ws, Moves(i, once, twice)) && Window(ws, Moves(i, once, twice), i, 2, 6, u)
  {
    var pending := opening[4];
    ClosingSteps(pending, i, u, once, twice);
    var last := Next(WithUsers(pending, twice), Proceed(i));
    var ms := [Proceed(i), Proceed(i), Proceed(i), Proceed(i)];
    ClosingRun(opening, ms, i, once, twice, last);
    var closing := [WithUsers(pending, once), WithUsers(pending, twice), last];
    WindowOf(opening, closing, i, u, once, twice);
    ws := opening + closing;
    assert ms + [Environment(once), Environment(twice), Proceed(i)] == Moves(i, once, twice);
  }

  /**
   * Wherever an attempt would change an account with a hashed password, two logins may fall between its read and its
   * write, and the change undoes the second.
   */
  lemma TwoLoginsAreUndone(cfg: Accounts.Config, w: World, i: nat, u: Id, password: string)
    returns (ws: seq<World>, ms: seq<Move>)
    requires Initial(w) && i < |w.phases| && Attempted(w.tables, w.attempts[i]).1 == Changed(u)
    requires UniqueEmails(w.tables.users) && u in w.tables.users && w.tables.users[u].password == Hashed(password)
    ensures
      var login := Accounts.Login(w.tables.users[u].email, password);
      var once := Accounts.After(cfg, w.tables.users, login);
      ms == Moves(i, once, Accounts.After(cfg, once, login))
    ensures ServiceRun(cfg, ws, ms) && ws[0] == w && Window(ws, ms, i, 2, 6, u)
    ensures u in ws[6].tables.users && Version(ws[6].tables.users[u]) == Version(w.tables.users[u]) + 2
    ensures u in ws[7].tables.users && Version(ws[7].tables.users[u]) == Version(w.tables.users[u]) + 1
  {
    ChangesIff(w.tables, w.attempts[i], u);
    var users := w.tables.users;
    var once := Accounts.Bump(users, u);
    var opening := OpenedRun(w, i, u);
    ws, ms := TwoBumpsAreUndone(opening, i, u);
    LoginAdvances(cfg, users, u, password);
    LoginAdvances(cfg, once, u, password);
    RunOfRequests(cfg, ws, ms, i, users, once, Accounts.Bump(once, u));
  }

  /** The change leaves password, email and status as a login needs them. */
  lemma ChangeKeepsLogin(before: Rows, after: Rows, u: Id, password: string, read: User)
    requires CanLogIn(before, u, password) && Status(read) == Some(ACTIVE)
    requires after == before[u := before[u].(superuser := true, meta := Accounts.Bumped(read).meta)]
    ensures CanLogIn(after, u, password) && after[u].email == before[u].email
  {
  }

  lemma BumpAdvances(users: Rows, u: Id)
    requires u in users
    ensures KeepsSuperusers(users, Accounts.Bump(users, u))
    ensures Version(Accounts.Bump(users, u)[u]) == Version(users[u]) + 1
  {
  }

  lemma TwoBumpsAreUndone(opening: seq<World>, i: nat, u: Id) returns (ws: seq<World>, ms: seq<Move>)
    requires Opened(opening, i, u) && u in opening[0].tables.users
    ensures
      var users := opening[0].tables.users;
      var once := Accounts.Bump(users, u);
      var twice := Accounts.Bump(once, u);
      && ms == Moves(i, once, twice) && IsRun(ws, ms) && ws[0] == opening[0] && Window(ws, ms, i, 2, 6, u)
      && ws[2].tables.users == ws[4].tables.users == users
      && ws[5].tables.users == once && ws[6].tables.users == twice
      && Version(twice[u]) == Version(users[u]) + 2
      && u in ws[7].tables.users && Version(ws[7].tables.users[u]) == Version(users[u]) + 1
  {
    var users := opening[0].tables.users;
    var once := Accounts.Bump(users, u);
    var twice := Accounts.Bump(once, u);
    BumpAdvances(users, u);
    BumpAdvances(once, u);
    ms := Moves(i, once, twice);
    ws := Interrupted(opening, i, u, once, twice);
    assert ws[0] == opening[0] && ws[2] == opening[2] && ws[4] == opening[4];
    ChangeWritesWhatItRead(ws, ms, i, 2, 6, u);
  }

  lemma RunOfRequests(cfg: Accounts.Config, ws: seq<World>, ms: seq<Move>, i: nat, users: Rows, once: Rows, twice: Rows)
    requires ms == Moves(i, once, twice) && IsRun(ws, ms)
    requires ws[4].tables.users == users && ws[5].tables.users == once
    requires ByRequest(cfg, users, once) && ByRequest(cfg, once, twice)
    ensures ServiceRun(cfg, ws, ms)
  {
  }

  // One more login after it ------------------------------------------------------------------------------------

  lemma BumpKeepsLogin(users: Rows, u: Id, password: string)
    requires CanLogIn(users, u, password)
    ensures CanLogIn(Accounts.Bump(users, u), u, password)
  {
  }

  lemma WindowExtends(ws: seq<World>, ms: seq<Move>, i: nat, a: nat, b: nat, u: Id, m: Move, next: World)
    requires Window(ws, ms, i, a, b, u) && i < |next.phases|
    ensures Window(ws + [next], ms + [m], i, a, b, u)
  {
  }

  /** The account can log in all the time, each version step is its bump, and these are the versions on the way. */
  ghost predicate TwoSteps(ws: seq<World>, ms: seq<Move>, u: Id, password: string, version: int) {
    && |ms| == 7 && |ws| == 8
    && (forall n | 4 <= n <= 7 :: CanLogIn(ws[n].tables.users, u, password))
    && (forall n | n == 4 || n == 5 :: ms[n] == Environment(Accounts.Bump(ws[n].tables.users, u)))
    && !ms[0].Environment? && !ms[1].Environment? && !ms[2].Environment? && !ms[3].Environment? && !ms[6].Environment?
    && Version(ws[5].tables.users[u]) == version - 1 && Version(ws[6].tables.users[u]) == version
    && Version(ws[7].tables.users[u]) == version - 1
  }

  lemma TwoBumpsAreSteps(users: Rows, ws: seq<World>, ms: seq<Move>, i: nat, u: Id, password: string)
    requires CanLogIn(users, u, password) && |ws| == 8
    requires ms == Moves(i, Accounts.Bump(users, u), Accounts.Bump(Accounts.Bump(users, u), u))
    requires ws[4].tables.users == users && ws[5].tables.users == Accounts.Bump(users, u)
    requires ws[6].tables.users == Accounts.Bump(ws[5].tables.users, u)
    requires
      var written := ws[6].tables.users[u].(superuser := true, meta := Accounts.Bumped(users[u]).meta);
      ws[7].tables.users == ws[6].tables.users[u := written]
    ensures TwoSteps(ws, ms, u, password, Version(users[u]) + 2)
  {
    BumpKeepsLogin(users, u, password);
    BumpKeepsLogin(ws[5].tables.users, u, password);
    ChangeKeepsLogin(ws[6].tables.users, ws[7].tables.users, u, password, users[u]);
  }

  ghost predicate ThreeSteps(ws: seq<World>, ms: seq<Move>, u: Id, password: string, version: int) {
    && |ms| == 8 && |ws| == 9 && TwoSteps(ws[..8], ms[..7], u, password, version)
    && ms[7] == Environment(Accounts.Bump(ws[7].tables.users, u))
    && CanLogIn(ws[8].tables.users, u, password) && Version(ws[8].tables.users[u]) == version
  }

  lemma OneMoreStep(ws: seq<World>, ms: seq<Move>, i: nat, u: Id, password: string, version: int)
    returns (all: seq<World>, moves: seq<Move>)
    requires IsRun(ws, ms) && TwoSteps(ws, ms, u, password, version) && Window(ws, ms, i, 2, 6, u)
    ensures IsRun(all, moves) && ThreeSteps(all, moves, u, password, version) && Window(all, moves, i, 2, 6, u)
    ensures all[0] == ws[0]
  {
    var users := Accounts.Bump(ws[7].tables.users, u);
    BumpKeepsLogin(ws[7].tables.users, u, password);
    BumpAdvances(ws[7].tables.users, u);
    EveryStateSatisfiesInv(ws, ms, 7);
    OneMoreMove(ws, ms, Environment(users), WithUsers(ws[7], users));
    WindowExtends(ws, ms, i, 2, 6, u, Environment(users), WithUsers(ws[7], users));
    all, moves := ws + [WithUsers(ws[7], users)], ms + [Environment(users)];
    assert all[..8] == ws && moves[..7] == ms;
  }

  lemma ThreeBumps(opening: seq<World>, i: nat, u: Id, password: string) returns (ws: seq<World>, ms: seq<Move>)
    requires Opened(opening, i, u) && CanLogIn(opening[0].tables.users, u, password)
    ensures IsRun(ws, ms) && ThreeSteps(ws, ms, u, password, Version(opening[0].tables.users[u]) + 2)
    ensures ws[0] == opening[0] && Window(ws, ms, i, 2, 6, u)
  {
    var users := opening[0].tables.users;
    ws, ms := TwoBumpsAreUndone(opening, i, u);
    ChangeWritesWhatItRead(ws, ms, i, 2, 6, u);
    TwoBumpsAreSteps(users, ws, ms, i, u, password);
    ws, ms := OneMoreStep(ws, ms, i, u, password, Version(users[u]) + 2);
  }

  /** The move is a login of the user, which hands out tokens of this version. */
  ghost predicate LoginAt(cfg: Accounts.Config, ws: seq<World>, ms: seq<Move>, n: nat, u: Id, password: string,
                          version: int)
    requires n < |ms| && n < |ws|
  {
    var users := ws[n].tables.users;
    && u in users
    && ms[n] == Environment(Accounts.After(cfg, users, Accounts.Login(users[u].email, password)))
    && Accounts.LoginStep(cfg, users, users[u].email, password).outcome == Accounts.LoggedIn(u, version)
  }

  lemma BumpIsLogin(cfg: Accounts.Config, ws: seq<World>, ms: seq<Move>, n: nat, u: Id, password: string)
    requires n < |ms| && n < |ws| && CanLogIn(ws[n].tables.users, u, password)
    requires ms[n] == Environment(Accounts.Bump(ws[n].tables.users, u))
    ensures LoginAt(cfg, ws, ms, n, u, password, Version(ws[n].tables.users[u]) + 1)
    ensures ByRequest(cfg, ws[n].tables.users, ms[n].users)
  {
    var users := ws[n].tables.users;
    LoginAdvances(cfg, users, u, password);
    Accounts.LoginWorksIff(cfg, users, users[u].email, password, u, Version(users[u]) + 1);
  }

  /** What a refresh with a token of the user and this version reports. */
  ghost function RefreshAt(cfg: Accounts.Config, w: World, u: Id, version: int): Accounts.Outcome {
    var token := Accounts.Token(Accounts.RefreshToken, u, version);
    Accounts.RefreshStep(cfg, w.tables.users, Accounts.Signed(token)).outcome
  }

  lemma RefreshIs(cfg: Accounts.Config, w: World, u: Id, password: string, version: int)
    requires CanLogIn(w.tables.users, u, password)
    ensures RefreshAt(cfg, w, u, version) ==
      if version == Version(w.tables.users[u]) then Accounts.Refreshed(u, version)
      else Accounts.Failed(Accounts.Unauthorized)
  {
  }

  lemma ThreeAreRequests(cfg: Accounts.Config, ws: seq<World>, ms: seq<Move>, u: Id, password: string, version: int)
    requires IsRun(ws, ms) && ThreeSteps(ws, ms, u, password, version)
    ensures ServiceRun(cfg, ws, ms)
  {
    forall n | 0 <= n < 8 && ms[n].Environment?
      ensures ByRequest(cfg, ws[n].tables.users, ms[n].users)
    {
      assert n < 7 ==> ms[..7][n] == ms[n];
      assert ws[..8][n] == ws[n];
      BumpIsLogin(cfg, ws, ms, n, u, password);
    }
  }

  /**
   * One more login after that run hands out the lost version again: the token of the second login, refused after the
   * change, works again, and two logins share one version.
   */
  lemma ThirdLoginRevives(cfg: Accounts.Config, w: World, i: nat, u: Id, password: string)
    returns (ws: seq<World>, ms: seq<Move>)
    requires Initial(w) && i < |w.phases| && Attempted(w.tables, w.attempts[i]).1 == Changed(u)
    requires UniqueEmails(w.tables.users) && u in w.tables.users && w.tables.users[u].password == Hashed(password)
    ensures ServiceRun(cfg, ws, ms) && |ms| == 8 && ws[0] == w && Window(ws, ms, i, 2, 6, u)
    ensures
      var version := Version(w.tables.users[u]) + 2;
      && LoginAt(cfg, ws, ms, 5, u, password, version) && LoginAt(cfg, ws, ms, 7, u, password, version)
      && RefreshAt(cfg, ws[6], u, version) == Accounts.Refreshed(u, version)
      && RefreshAt(cfg, ws[7], u, version) == Accounts.Failed(Accounts.Unauthorized)
      && RefreshAt(cfg, ws[8], u, version) == Accounts.Refreshed(u, version)
  {
    var version := Version(w.tables.users[u]) + 2;
    ChangesIff(w.tables, w.attempts[i], u);
    var opening := OpenedRun(w, i, u);
    ws, ms := ThreeBumps(opening, i, u, password);
    ThreeAreRequests(cfg, ws, ms, u, password, version);
    BumpIsLogin(cfg, ws, ms, 5, u, password);
    BumpIsLogin(cfg, ws, ms, 7, u, password);
    RefreshIs(cfg, ws[6], u, password, version);
    RefreshIs(cfg, ws[7], u, password, version);
    RefreshIs(cfg, ws[8], u, password, version);
  }

  const OWNER := User("a", Hashed("pw"), false, Open, map[STATUS_KEY := Text(ACTIVE)])
  const START := World(Tables(Some(Control(None, false, None)), map["u" := OWNER], []),
    [Attempt("a", "first superuser", "u")], [Fresh])

  /** One active account and one attempt: a run whose version goes from 0 to 2 and back to 1. */
  lemma ReachableWindow(cfg: Accounts.Config) returns (ws: seq<World>, ms: seq<Move>)
    ensures ServiceRun(cfg, ws, ms) && ws[0] == START && Window(ws, ms, 0, 2, 6, "u")
    ensures "u" in ws[6].tables.users && Version(ws[6].tables.users["u"]) == 2
    ensures "u" in ws[7].tables.users && Version(ws[7].tables.users["u"]) == 1
  {
    var attempt := START.attempts[0];
    assert Strip(attempt.reason) == attempt.reason;
    assert Strip("a") == "a";
    ChangesIff(START.tables, attempt, "u");
    ws, ms := TwoLoginsAreUndone(cfg, START, 0, "u", "pw");
  }
}
