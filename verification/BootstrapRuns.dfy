/** Many operators bootstrapping at once: a transaction protocol over one lock. */
module BootstrapRuns {
  import opened Prelude
  import opened Users
  import opened Bootstrap
  import Accounts

  /**
   * How far an attempt is.  Waiting attempts hold nothing; Locked, Confirmed and Writing hold the control
   * row's lock.  Confirmed carries the target's row as the locked read found it, and Writing the metadata
   * computed from that row.
   */
  datatype Phase =
    | Fresh
    | Waiting
    | Locked
    | Confirmed(u: Id, row: User)
    | Writing(u: Id, meta: Metadata)
    | Finished(result: Result)

  predicate HoldsLock(phase: Phase) {
    phase.Locked? || phase.Confirmed? || phase.Writing?
  }

  /** The committed tables, and one phase per attempt. */
  datatype World = World(tables: Tables, attempts: seq<Attempt>, phases: seq<Phase>)

  /** An attempt takes its next step, is cut short, or the rest of the service changes accounts. */
  datatype Move = Proceed(i: nat) | Abort(i: nat) | Environment(users: Rows)

  predicate LockFree(phases: seq<Phase>) {
    forall j | 0 <= j < |phases| :: !HoldsLock(phases[j])
  }

  function To(w: World, i: nat, phase: Phase): World
    requires i < |w.phases|
  {
    w.(phases := w.phases[i := phase])
  }

  /** The rest of the service may do anything to accounts except drop them or touch the superuser flag. */
  ghost predicate KeepsSuperusers(before: Rows, after: Rows) {
    && before.Keys <= after.Keys
    && (forall u | u in after :: after[u].superuser <==> u in before && before[u].superuser)
  }

  /** Whether a move can be made: an attempt that waits for the lock proceeds once nobody holds it. */
  ghost predicate Enabled(w: World, m: Move) {
    match m
    case Proceed(i) => i < |w.phases| && !w.phases[i].Finished? && (w.phases[i].Waiting? ==> LockFree(w.phases))
    case Abort(i) => i < |w.phases| && !w.phases[i].Fresh? && !w.phases[i].Finished?
    case Environment(users) => KeepsSuperusers(w.tables.users, users)
  }

  /** The locked read: the target, the confirmed id, and a control row that may be complete already. */
  ghost function Confirmation(t: Tables, a: Attempt): Phase {
    var found := FindTarget(t.users, a.email);
    if t.control.None? then Finished(Error(NoControl))
    else if found.NoTarget? then Finished(Error(found.why))
    else if found.u != a.expected then Finished(Error(WrongUser))
    else if !t.control.value.completed then Confirmed(found.u, t.users[found.u])
    else if t.control.value.user == Some(found.u) && t.users[found.u].superuser then Finished(Unchanged(found.u))
    else Finished(Error(AlreadyCompleted))
  }

  /** The look for an existing superuser, closed accounts included. */
  function Inspection(t: Tables, u: Id, row: User): Phase {
    if Superusers(t.users) != {} then Finished(Error(SuperuserExists))
    else Writing(u, Accounts.Bumped(row).meta)
  }

  /** An attempt's own next step: what it commits, and how far it is afterwards. */
  ghost function Advance(t: Tables, a: Attempt, phase: Phase): (Tables, Phase) {
    match phase
    case Fresh =>
      (t, if ReasonFault(a.reason).Some? then Finished(Error(ReasonFault(a.reason).value)) else Waiting)
    case Waiting => (t, if t.control.None? then Finished(Error(NoControl)) else Locked)
    case Locked => (t, Confirmation(t, a))
    case Confirmed(u, row) => (t, Inspection(t, u, row))
    case Writing(u, meta) =>
      if u in t.users then (Written(t, u, meta, a.reason), Finished(Changed(u))) else (t, Finished(Error(Crash)))
    case Finished(_) => (t, phase)
  }

  ghost function Next(w: World, m: Move): World
    requires |w.attempts| == |w.phases| && Enabled(w, m)
  {
    match m
    case Proceed(i) =>
      var (t, phase) := Advance(w.tables, w.attempts[i], w.phases[i]);
      To(w.(tables := t), i, phase)
    case Abort(i) => To(w, i, Finished(Error(Crash)))
    case Environment(users) => w.(tables := w.tables.(users := users))
  }

  // The invariant ---------------------------------------------------------------------------------------

  /** At most one attempt holds the lock. */
  ghost predicate OneHolder(phases: seq<Phase>) {
    forall i, j | 0 <= i < j < |phases| :: !HoldsLock(phases[i]) || !HoldsLock(phases[j])
  }

  ghost predicate NoChange(phases: seq<Phase>) {
    forall i | 0 <= i < |phases| :: !IsChange(phases[i])
  }

  predicate IsChange(phase: Phase) {
    phase.Finished? && phase.result.Changed?
  }

  /** Exactly one attempt reports a change. */
  ghost predicate OneChange(phases: seq<Phase>, u: Id) {
    exists k | 0 <= k < |phases| :: ChangedAt(phases, k, u)
  }

  ghost predicate ChangedAt(phases: seq<Phase>, k: nat, u: Id)
    requires k < |phases|
  {
    phases[k] == Finished(Changed(u)) && forall j | 0 <= j < |phases| && j != k :: !IsChange(phases[j])
  }

  predicate Pristine(t: Tables) {
    && t.log == [] && Superusers(t.users) == {}
    && (t.control.Some? ==> !t.control.value.completed)
  }

  /** The bootstrap has happened: one event, about the control row's user, who is the only superuser. */
  predicate Completed(t: Tables, u: Id) {
    && t.control == Some(Control(Some(u), true, Some(SOURCE)))
    && |t.log| == 1 && t.log[0] == EventFor(u, t.log[0].reason)
    && Superusers(t.users) == {u}
  }

  /** A write is only ever pending while the tables are pristine and the control row is there. */
  ghost predicate PendingOk(t: Tables, phases: seq<Phase>) {
    forall i | 0 <= i < |phases| && (phases[i].Confirmed? || phases[i].Writing?) :: t.control.Some? && Pristine(t)
  }

  ghost predicate Inv(w: World) {
    && |w.attempts| == |w.phases| && OneHolder(w.phases) && PendingOk(w.tables, w.phases)
    && ((Pristine(w.tables) && NoChange(w.phases))
        || (exists u :: Completed(w.tables, u) && OneChange(w.phases, u)))
  }

  ghost predicate Initial(w: World) {
    && |w.attempts| == |w.phases| && Pristine(w.tables)
    && forall i | 0 <= i < |w.phases| :: w.phases[i].Fresh?
  }

  lemma InitialSatisfiesInv(w: World)
    requires Initial(w)
    ensures Inv(w)
  {
  }

  lemma EnvironmentKeepsSuperusers(before: Rows, after: Rows)
    requires KeepsSuperusers(before, after)
    ensures Superusers(after) == Superusers(before)
  {
    forall u
      ensures u in Superusers(after) <==> u in Superusers(before)
    {
      assert u in Superusers(after) ==> u in after && after[u].superuser;
      assert u in Superusers(before) ==> u in before && u in after;
    }
  }

  /** A phase that does not change what counts: the lock only moves inward from the free lock, no result is a change. */
  lemma PhaseKeepsInv(w: World, i: nat, phase: Phase)
    requires Inv(w) && i < |w.phases|
    requires !IsChange(phase) && !IsChange(w.phases[i])
    requires HoldsLock(phase) ==> HoldsLock(w.phases[i]) || LockFree(w.phases)
    requires phase.Confirmed? || phase.Writing? ==> w.tables.control.Some? && Pristine(w.tables)
    ensures Inv(To(w, i, phase))
  {
    var after := To(w, i, phase);
    if !(Pristine(w.tables) && NoChange(w.phases)) {
      var u :| Completed(w.tables, u) && OneChange(w.phases, u);
      var k :| 0 <= k < |w.phases| && ChangedAt(w.phases, k, u);
      assert ChangedAt(after.phases, k, u);
      assert OneChange(after.phases, u);
    }
  }

  lemma WrittenCompletes(t: Tables, u: Id, meta: Metadata, reason: string)
    requires Pristine(t) && u in t.users
    ensures Completed(Written(t, u, meta, reason), u)
  {
    var users := Written(t, u, meta, reason).users;
    assert forall v | v in t.users && t.users[v].superuser :: v in Superusers(t.users);
    assert Superusers(users) == {u};
  }

  lemma WriteKeepsInv(w: World, i: nat)
    requires Inv(w) && i < |w.phases| && w.phases[i].Writing?
    ensures Inv(Next(w, Proceed(i)))
  {
    var u := w.phases[i].u;
    if u in w.tables.users {
      WrittenCompletes(w.tables, u, w.phases[i].meta, w.attempts[i].reason);
      var after := Next(w, Proceed(i));
      assert ChangedAt(after.phases, i, u);
      assert OneChange(after.phases, u);
    } else {
      PhaseKeepsInv(w, i, Finished(Error(Crash)));
    }
  }

  lemma EnvironmentKeepsInv(w: World, users: Rows)
    requires Inv(w) && KeepsSuperusers(w.tables.users, users)
    ensures Inv(Next(w, Environment(users)))
  {
    EnvironmentKeepsSuperusers(w.tables.users, users);
    var after := Next(w, Environment(users));
    if !Pristine(w.tables) {
      var u :| Completed(w.tables, u) && OneChange(w.phases, u);
      assert Completed(after.tables, u);
    }
  }

  lemma PristineIfIncomplete(w: World)
    requires Inv(w) && w.tables.control.Some? && !w.tables.control.value.completed
    ensures Pristine(w.tables)
  {
  }

  lemma ProceedKeepsInv(w: World, i: nat)
    requires Inv(w) && Enabled(w, Proceed(i))
    ensures Inv(Next(w, Proceed(i)))
  {
    if w.phases[i].Writing? {
      WriteKeepsInv(w, i);
    } else {
      var phase := Advance(w.tables, w.attempts[i], w.phases[i]).1;
      if phase.Confirmed? {
        PristineIfIncomplete(w);
      }
      PhaseKeepsInv(w, i, phase);
    }
  }

  /** Every move keeps the invariant. */
  lemma NextKeepsInv(w: World, m: Move)
    requires Inv(w) && Enabled(w, m)
    ensures Inv(Next(w, m))
  {
    match m
    case Proceed(i) => ProceedKeepsInv(w, i);
    case Abort(i) => PhaseKeepsInv(w, i, Finished(Error(Crash)));
    case Environment(users) => EnvironmentKeepsInv(w, users);
  }

  // Runs --------------------------------------------------------------------------------------------------

  ghost predicate StepTo(before: World, m: Move, after: World) {
    |before.attempts| == |before.phases| && Enabled(before, m) && after == Next(before, m)
  }

  /** A run: any interleaving, of any number of attempts, from a state without superuser. */
  ghost predicate IsRun(ws: seq<World>, ms: seq<Move>) {
    && |ws| == |ms| + 1 && Initial(ws[0])
    && forall n | 0 <= n < |ms| :: StepAt(ws, ms, n)
  }

  ghost predicate StepAt(ws: seq<World>, ms: seq<Move>, n: nat)
    requires |ws| == |ms| + 1 && n < |ms|
  {
    StepTo(ws[n], ms[n], ws[n + 1])
  }

  lemma {:induction false} EveryStateSatisfiesInv(ws: seq<World>, ms: seq<Move>, n: nat)
    requires IsRun(ws, ms) && n < |ws|
    ensures Inv(ws[n])
  {
    if n == 0 {
      InitialSatisfiesInv(ws[0]);
    } else {
      EveryStateSatisfiesInv(ws, ms, n - 1);
      assert StepAt(ws, ms, n - 1);
      NextKeepsInv(ws[n - 1], ms[n - 1]);
    }
  }

  /** At most one attempt of a run ever reports a change. */
  lemma AtMostOneChange(ws: seq<World>, ms: seq<Move>, n: nat, i: nat, j: nat)
    requires IsRun(ws, ms) && n < |ws|
    requires i < |ws[n].phases| && j < |ws[n].phases| && IsChange(ws[n].phases[i]) && IsChange(ws[n].phases[j])
    ensures i == j
  {
    EveryStateSatisfiesInv(ws, ms, n);
  }

  /** The log has an event exactly when the control row is complete, and then both name the only superuser. */
  lemma LogMatchesControl(ws: seq<World>, ms: seq<Move>, n: nat)
    requires IsRun(ws, ms) && n < |ws|
    ensures
      var t := ws[n].tables;
      && |t.log| <= 1
      && (|t.log| == 1 <==> t.control.Some? && t.control.value.completed)
      && (|t.log| == 1 ==> t.control.value.user == Some(t.log[0].target) && Superusers(t.users) == {t.log[0].target})
      && (|t.log| == 0 ==> Superusers(t.users) == {})
  {
    EveryStateSatisfiesInv(ws, ms, n);
  }

  /** A reported change is there in the tables: its user is the superuser. */
  lemma ChangeIsRecorded(ws: seq<World>, ms: seq<Move>, n: nat, i: nat, u: Id)
    requires IsRun(ws, ms) && n < |ws| && i < |ws[n].phases| && ws[n].phases[i] == Finished(Changed(u))
    ensures Completed(ws[n].tables, u)
  {
    EveryStateSatisfiesInv(ws, ms, n);
    assert IsChange(ws[n].phases[i]);
  }

  lemma NextKeepsCompletion(w: World, m: Move, u: Id)
    requires Inv(w) && Enabled(w, m) && Completed(w.tables, u)
    ensures
      var after := Next(w, m).tables;
      Completed(after, u) && after.log == w.tables.log && after.control == w.tables.control
  {
    match m
    case Environment(users) => EnvironmentKeepsSuperusers(w.tables.users, users);
    case _ =>
  }

  /** Once complete, always complete: log, control row and superuser never change again. */
  lemma {:induction false} CompletionIsForever(ws: seq<World>, ms: seq<Move>, n: nat, m: nat, u: Id)
    requires IsRun(ws, ms) && n <= m < |ws| && Completed(ws[n].tables, u)
    ensures Completed(ws[m].tables, u)
    ensures ws[m].tables.log == ws[n].tables.log && ws[m].tables.control == ws[n].tables.control
    decreases m
  {
    if n < m {
      CompletionIsForever(ws, ms, n, m - 1, u);
      EveryStateSatisfiesInv(ws, ms, m - 1);
      assert StepAt(ws, ms, m - 1);
      NextKeepsCompletion(ws[m - 1], ms[m - 1], u);
    }
  }

  /** An attempt touches the committed tables only in the step that reports its change. */
  lemma OnlyAChangeWrites(w: World, m: Move)
    requires |w.attempts| == |w.phases| && Enabled(w, m) && !m.Environment?
    ensures Next(w, m).tables != w.tables ==>
      m.Proceed? && IsChange(Next(w, m).phases[m.i]) && |Next(w, m).tables.log| == |w.tables.log| + 1
  {
  }

  /** No attempt reports "already done" unless it is, for that very user. */
  lemma UnchangedMeansCompleted(w: World, i: nat, u: Id)
    requires Inv(w) && Enabled(w, Proceed(i)) && Next(w, Proceed(i)).phases[i] == Finished(Unchanged(u))
    ensures Completed(w.tables, u) && u == w.attempts[i].expected
  {
  }

  // One attempt alone ---------------------------------------------------------------------------------------

  /** Up to n steps of one attempt, with nothing in between. */
  ghost function Alone(t: Tables, a: Attempt, phase: Phase, n: nat): (Tables, Phase)
    decreases n
  {
    if n == 0 || phase.Finished? then (t, phase)
    else
      var (next, further) := Advance(t, a, phase);
      Alone(next, a, further, n - 1)
  }

  lemma AloneFromWriting(t: Tables, a: Attempt, u: Id)
    requires u in t.users
    ensures Alone(t, a, Writing(u, Accounts.Bumped(t.users[u]).meta), 1) ==
      (Written(t, u, Accounts.Bumped(t.users[u]).meta, a.reason), Finished(Changed(u)))
  {
  }

  lemma AloneFromConfirmed(t: Tables, a: Attempt, u: Id)
    requires u in t.users
    ensures Alone(t, a, Confirmed(u, t.users[u]), 2) ==
      if Superusers(t.users) != {} then (t, Finished(Error(SuperuserExists)))
      else (Written(t, u, Accounts.Bumped(t.users[u]).meta, a.reason), Finished(Changed(u)))
  {
    AloneFromWriting(t, a, u);
  }

  lemma AloneFromLocked(t: Tables, a: Attempt)
    requires t.control.Some?
    ensures Alone(t, a, Locked, 3) ==
      var found := FindTarget(t.users, a.email);
      if found.NoTarget? then (t, Finished(Error(found.why)))
      else
        var verdict := Verdict(t, found.u, a.expected);
        if verdict.Some? then (t, Finished(verdict.value))
        else (Written(t, found.u, Accounts.Bumped(t.users[found.u]).meta, a.reason), Finished(Changed(found.u)))
  {
    var found := FindTarget(t.users, a.email);
    if found.Target? {
      TargetIff(t.users, a.email, found.u);
      AloneFromConfirmed(t, a, found.u);
    }
  }

  /** The five steps of an undisturbed attempt amount to one attempt as a whole. */
  lemma AloneIsAttempted(t: Tables, a: Attempt)
    ensures Alone(t, a, Fresh, 5) == (Attempted(t, a).0, Finished(Attempted(t, a).1))
  {
    assert Alone(t, a, Fresh, 5) == Alone(t, a, Advance(t, a, Fresh).1, 4);
    if ReasonFault(a.reason).None? {
      assert Alone(t, a, Waiting, 4) == Alone(t, a, Advance(t, a, Waiting).1, 3);
      if t.control.Some? {
        AloneFromLocked(t, a);
      }
    }
  }

  /** Nobody else holds the lock. */
  ghost predicate OthersFree(phases: seq<Phase>, i: nat) {
    forall j | 0 <= j < |phases| && j != i :: !HoldsLock(phases[j])
  }

  ghost function ProceedAlone(w: World, i: nat, n: nat): World
    requires |w.attempts| == |w.phases| && i < |w.phases| && OthersFree(w.phases, i)
    decreases n
  {
    if n == 0 || w.phases[i].Finished? then w else ProceedAlone(Next(w, Proceed(i)), i, n - 1)
  }

  lemma ToTwice(w: World, t: Tables, i: nat, phase: Phase, end: (Tables, Phase))
    requires i < |w.phases|
    ensures To(To(w.(tables := t), i, phase).(tables := end.0), i, end.1) == To(w.(tables := end.0), i, end.1)
  {
    assert w.phases[i := phase][i := end.1] == w.phases[i := end.1];
  }

  lemma {:induction false} ProceedAloneIs(w: World, i: nat, n: nat)
    requires |w.attempts| == |w.phases| && i < |w.phases| && OthersFree(w.phases, i)
    ensures
      var (t, phase) := Alone(w.tables, w.attempts[i], w.phases[i], n);
      ProceedAlone(w, i, n) == To(w.(tables := t), i, phase)
    decreases n
  {
    if n == 0 || w.phases[i].Finished? {
      assert w.phases[i := w.phases[i]] == w.phases;
    } else {
      var (t, phase) := Advance(w.tables, w.attempts[i], w.phases[i]);
      var next := To(w.(tables := t), i, phase);
      ProceedAloneIs(next, i, n - 1);
      ToTwice(w, t, i, phase, Alone(t, w.attempts[i], phase, n - 1));
    }
  }

  /** An attempt that meets a free lock and is not disturbed ends as the attempt as a whole does. */
  lemma UndisturbedAttempt(w: World, i: nat)
    requires |w.attempts| == |w.phases| && i < |w.phases| && w.phases[i].Fresh? && LockFree(w.phases)
    ensures ProceedAlone(w, i, 5).tables == Attempted(w.tables, w.attempts[i]).0
    ensures ProceedAlone(w, i, 5).phases[i] == Finished(Attempted(w.tables, w.attempts[i]).1)
  {
    ProceedAloneIs(w, i, 5);
    AloneIsAttempted(w.tables, w.attempts[i]);
  }
}
