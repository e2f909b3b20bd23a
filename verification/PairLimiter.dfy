/** How far the email limit implies the pair limit: entry by entry, whatever the clock readings are. */
module PairLimiter {
  import opened Prelude
  import opened SlidingWindow
  import opened CompositeLimiter

  // Counting entries from a point in time on -------------------------------------------------------

  function CountFrom(times: seq<real>, lo: real): nat {
    if times == [] then 0 else CountFrom(times[..|times| - 1], lo) + if times[|times| - 1] >= lo then 1 else 0
  }

  lemma {:induction false} CountFromTail(times: seq<real>, k: nat, lo: real)
    requires k <= |times| && forall i | 0 <= i < k :: times[i] < lo
    ensures CountFrom(times[k..], lo) == CountFrom(times, lo)
  {
    if k == |times| {
      if k > 0 {
        CountFromTail(times[..k - 1], k - 1, lo);
        assert times[..k - 1][k - 1..] == [];
      }
      assert times[k..] == [];
    } else {
      var front := times[..|times| - 1];
      CountFromTail(front, k, lo);
      assert times[k..][..|times| - k - 1] == front[k..];
    }
  }

  lemma {:induction false} CountFromBounds(times: seq<real>, lo: real)
    ensures CountFrom(times, lo) <= |times|
    ensures (forall i | 0 <= i < |times| :: times[i] >= lo) ==> CountFrom(times, lo) == |times|
  {
    if times != [] {
      CountFromBounds(times[..|times| - 1], lo);
    }
  }

  lemma CountFromAppend(times: seq<real>, now: real, lo: real)
    ensures CountFrom(times + [now], lo) == CountFrom(times, lo) + if now >= lo then 1 else 0
  {
    assert (times + [now])[..|times|] == times;
  }

  ghost predicate Steady(times: seq<real>, latest: real) {
    Ascending(times) && NoneAfter(times, latest)
  }

  lemma {:induction false} DropCountsLess(times: seq<real>, k: nat, lo: real)
    requires k <= |times|
    ensures CountFrom(times[k..], lo) <= CountFrom(times, lo)
  {
    if k == |times| {
      assert times[k..] == [];
    } else {
      var n := |times| - 1;
      DropCountsLess(times[..n], k, lo);
      assert times[k..][..n - k] == times[..n][k..];
    }
  }

  lemma HitStaysSteady(dq: seq<real>, limit: int, latest: real, now: real)
    requires Steady(dq, latest) && latest <= now
    ensures Steady(HitDeque(dq, limit, WINDOW_SECONDS, now).0, now)
  {
    var n := ExpiredFrom(dq, 0, WINDOW_SECONDS, now);
    var live := dq[n..];
    assert forall i | 0 <= i < |live| :: live[i] == dq[n + i];
  }

  lemma DropKeepsCount(dq: seq<real>, now: real, lo: real)
    requires lo >= now - WINDOW_SECONDS as real
    ensures CountFrom(DropExpired(dq, WINDOW_SECONDS, now), lo) == CountFrom(dq, lo)
  {
    CountFromTail(dq, ExpiredFrom(dq, 0, WINDOW_SECONDS, now), lo);
  }

  lemma HitCount(dq: seq<real>, limit: int, now: real, lo: real)
    requires lo >= now - WINDOW_SECONDS as real
    ensures
      var (after, verdict) := HitDeque(dq, limit, WINDOW_SECONDS, now);
      CountFrom(after, lo) == CountFrom(dq, lo) + if verdict.Accepted? && now >= lo then 1 else 0
  {
    var (after, verdict) := HitDeque(dq, limit, WINDOW_SECONDS, now);
    DropKeepsCount(dq, now, lo);
    CountAfterHit(DropExpired(dq, WINDOW_SECONDS, now), now, lo, after, verdict.Accepted?);
  }

  lemma CountAfterHit(live: seq<real>, now: real, lo: real, after: seq<real>, accepted: bool)
    requires after == if accepted then live + [now] else live
    ensures CountFrom(after, lo) == CountFrom(live, lo) + if accepted && now >= lo then 1 else 0
  {
    CountFromAppend(live, now, lo);
  }

  lemma AllLiveCount(dq: seq<real>, latest: real, now: real)
    requires Steady(dq, latest)
    ensures
      var live := DropExpired(dq, WINDOW_SECONDS, now);
      |live| == CountFrom(dq, now - WINDOW_SECONDS as real)
  {
    var n := ExpiredFrom(dq, 0, WINDOW_SECONDS, now);
    var live := dq[n..];
    var lo := now - WINDOW_SECONDS as real;
    DropKeepsCount(dq, now, lo);
    forall i | 0 <= i < |live|
      ensures live[i] >= lo
    {
      assert live[i] == dq[n + i] >= dq[n];
    }
    CountFromBounds(live, lo);
  }

  // The checks behind a pair deque --------------------------------------------------------------------

  /** A check with its place in the sequence. */
  datatype Entry = Entry(place: nat, check: Check)

  function PairTimes(entries: seq<Entry>): seq<real> {
    seq(|entries|, i requires 0 <= i < |entries| => entries[i].check.pairTime)
  }

  function EmailTimes(entries: seq<Entry>): seq<real> {
    seq(|entries|, i requires 0 <= i < |entries| => entries[i].check.emailTime)
  }

  function Live(entries: seq<Entry>, now: real): seq<Entry> {
    entries[ExpiredFrom(PairTimes(entries), 0, WINDOW_SECONDS, now)..]
  }

  /** The entries after one more check, which the limiters answered with this verdict. */
  function NextEntries(entries: seq<Entry>, key: string, place: nat, c: Check, verdict: CheckVerdict): seq<Entry> {
    if PairKey(c.ip, c.email) != key then entries
    else
      match verdict
      case Allowed => Live(entries, c.pairTime) + [Entry(place, c)]
      case Raised(ByPair, _) => Live(entries, c.pairTime)
      case Raised(_, _) => entries
  }

  /** The checks whose hits make up the pair deque of a key, oldest first. */
  function Entries(checks: seq<Check>, key: string): seq<Entry> {
    if checks == [] then []
    else
      var n := |checks| - 1;
      NextEntries(Entries(checks[..n], key), key, n, checks[n], CheckStep(RunChecks(checks[..n]).0, checks[n]).1)
  }

  lemma LiveTimes(entries: seq<Entry>, now: real)
    ensures PairTimes(Live(entries, now)) == DropExpired(PairTimes(entries), WINDOW_SECONDS, now)
    ensures EmailTimes(Live(entries, now)) ==
      EmailTimes(entries)[ExpiredFrom(PairTimes(entries), 0, WINDOW_SECONDS, now)..]
  {
  }

  lemma {:induction false} PairDequeIs(checks: seq<Check>, key: string)
    ensures DequeOf(RunChecks(checks).0.perPair, key) == PairTimes(Entries(checks, key))
  {
    if checks != [] {
      var n := |checks| - 1;
      PairDequeIs(checks[..n], key);
      StepPairDeque(RunChecks(checks[..n]).0, checks[n], key, Entries(checks[..n], key), n);
    }
  }

  lemma StepPairDeque(s: Limiters, c: Check, key: string, entries: seq<Entry>, place: nat)
    requires DequeOf(s.perPair, key) == PairTimes(entries)
    ensures DequeOf(CheckStep(s, c).0.perPair, key) == PairTimes(NextEntries(entries, key, place, c, CheckStep(s, c).1))
  {
    StepPairTimes(s, c, key);
    NextTimes(entries, key, place, c, CheckStep(s, c).1);
  }

  lemma HitKeyDeque(events: Events, limit: int, hit: string, now: real, key: string)
    ensures DequeOf(HitKey(events, limit, WINDOW_SECONDS, hit, now).0, key) ==
      if key == hit then HitDeque(DequeOf(events, key), limit, WINDOW_SECONDS, now).0 else DequeOf(events, key)
    ensures HitKey(events, limit, WINDOW_SECONDS, hit, now).1 ==
      HitDeque(DequeOf(events, hit), limit, WINDOW_SECONDS, now).1
  {
  }

  lemma StepPairTimes(s: Limiters, c: Check, key: string)
    ensures DequeOf(CheckStep(s, c).0.perPair, key) == NextPairTimes(DequeOf(s.perPair, key), key, c, CheckStep(s, c).1)
  {
    StepPairEvents(s, c);
    HitKeyDeque(s.perPair, PAIR_LIMIT, PairKey(c.ip, c.email), c.pairTime, key);
  }

  /** The pair deque after one more check, from the verdict alone. */
  function NextPairTimes(dq: seq<real>, key: string, c: Check, verdict: CheckVerdict): seq<real> {
    if PairKey(c.ip, c.email) != key then dq
    else
      match verdict
      case Allowed => DropExpired(dq, WINDOW_SECONDS, c.pairTime) + [c.pairTime]
      case Raised(ByPair, _) => DropExpired(dq, WINDOW_SECONDS, c.pairTime)
      case Raised(_, _) => dq
  }

  lemma NextTimes(entries: seq<Entry>, key: string, place: nat, c: Check, verdict: CheckVerdict)
    ensures PairTimes(NextEntries(entries, key, place, c, verdict)) ==
      NextPairTimes(PairTimes(entries), key, c, verdict)
  {
    LiveTimes(entries, c.pairTime);
  }

  /** What an entry is: an earlier check of that key, let through by all three limiters. */
  ghost predicate IsEntry(checks: seq<Check>, key: string, e: Entry) {
    && e.place < |checks| && e.check == checks[e.place] && PairKey(e.check.ip, e.check.email) == key
    && CheckStep(RunChecks(checks[..e.place]).0, e.check).1 == Allowed
  }

  ghost predicate AreEntries(checks: seq<Check>, key: string, entries: seq<Entry>) {
    && (forall i | 0 <= i < |entries| :: IsEntry(checks, key, entries[i]))
    && (forall i, j | 0 <= i < j < |entries| :: entries[i].place < entries[j].place)
  }

  lemma EntryStays(checks: seq<Check>, key: string, e: Entry)
    requires checks != [] && IsEntry(checks[..|checks| - 1], key, e)
    ensures IsEntry(checks, key, e)
  {
    assert checks[..|checks| - 1][..e.place] == checks[..e.place];
  }

  lemma EntriesStay(checks: seq<Check>, key: string, entries: seq<Entry>)
    requires checks != [] && AreEntries(checks[..|checks| - 1], key, entries)
    ensures AreEntries(checks, key, entries)
    ensures forall i | 0 <= i < |entries| :: entries[i].place < |checks| - 1
  {
    forall i | 0 <= i < |entries|
      ensures IsEntry(checks, key, entries[i]) && entries[i].place < |checks| - 1
    {
      EntryStays(checks, key, entries[i]);
    }
  }

  lemma TailAreEntries(checks: seq<Check>, key: string, entries: seq<Entry>, k: nat)
    requires AreEntries(checks, key, entries) && k <= |entries|
    ensures AreEntries(checks, key, entries[k..])
  {
    forall i | 0 <= i < |entries[k..]|
      ensures IsEntry(checks, key, entries[k..][i])
    {
      assert entries[k..][i] == entries[k + i];
    }
  }

  lemma MoreEntries(checks: seq<Check>, key: string, entries: seq<Entry>, e: Entry)
    requires AreEntries(checks, key, entries) && IsEntry(checks, key, e)
    requires forall i | 0 <= i < |entries| :: entries[i].place < e.place
    ensures AreEntries(checks, key, entries + [e])
  {
    var all := entries + [e];
    assert all[|entries|] == e;
    forall i | 0 <= i < |entries|
      ensures all[i] == entries[i]
    {
    }
    forall i, j | 0 <= i < j < |all|
      ensures all[i].place < all[j].place
    {
      if j == |entries| {
        assert all[i] == entries[i];
      }
    }
  }

  lemma NextAreEntries(checks: seq<Check>, key: string, entries: seq<Entry>, verdict: CheckVerdict)
    requires checks != [] && AreEntries(checks, key, entries)
    requires forall i | 0 <= i < |entries| :: entries[i].place < |checks| - 1
    requires
      var n := |checks| - 1;
      PairKey(checks[n].ip, checks[n].email) == key && verdict.Allowed? ==> IsEntry(checks, key, Entry(n, checks[n]))
    ensures AreEntries(checks, key, NextEntries(entries, key, |checks| - 1, checks[|checks| - 1], verdict))
  {
    var n := |checks| - 1;
    var k := ExpiredFrom(PairTimes(entries), 0, WINDOW_SECONDS, checks[n].pairTime);
    TailAreEntries(checks, key, entries, k);
    if PairKey(checks[n].ip, checks[n].email) == key && verdict.Allowed? {
      MoreEntries(checks, key, entries[k..], Entry(n, checks[n]));
    }
  }

  lemma {:induction false} EntriesAre(checks: seq<Check>, key: string)
    ensures AreEntries(checks, key, Entries(checks, key))
  {
    if checks != [] {
      var n := |checks| - 1;
      EntriesAre(checks[..n], key);
      EntriesStay(checks, key, Entries(checks[..n], key));
      NextAreEntries(checks, key, Entries(checks[..n], key), CheckStep(RunChecks(checks[..n]).0, checks[n]).1);
    }
  }

  // The email deque covers the pair entries ----------------------------------------------------------------

  ghost predicate ColonFree(checks: seq<Check>) {
    forall i | 0 <= i < |checks| :: ':' !in checks[i].email
  }

  /** The email limiter's clock never goes back. */
  ghost predicate EmailClockAscends(checks: seq<Check>) {
    forall i, j | 0 <= i < j < |checks| :: checks[i].emailTime <= checks[j].emailTime
  }

  /** At every cut still inside the window, no more pair entries than email entries come from checks after it. */
  ghost predicate Covered(entries: seq<Entry>, email: seq<real>, latest: real) {
    forall lo: real | lo >= latest - WINDOW_SECONDS as real ::
      CountFrom(EmailTimes(entries), lo) <= CountFrom(email, lo)
  }

  lemma EmailHitCovers(entries: seq<Entry>, email: seq<real>, latest: real, now: real)
    requires Covered(entries, email, latest) && latest <= now
    ensures Covered(entries, HitDeque(email, EMAIL_LIMIT, WINDOW_SECONDS, now).0, now)
  {
    forall lo: real | lo >= now - WINDOW_SECONDS as real
      ensures CountFrom(EmailTimes(entries), lo) <= CountFrom(HitDeque(email, EMAIL_LIMIT, WINDOW_SECONDS, now).0, lo)
    {
      HitCount(email, EMAIL_LIMIT, now, lo);
    }
  }

  /** A check that the email limiter let through adds at most one entry, and one email entry at its own time. */
  lemma NextEntriesCovered(entries: seq<Entry>, email: seq<real>, latest: real, c: Check, key: string, place: nat,
                           verdict: CheckVerdict)
    requires Covered(entries, email, latest) && latest <= c.emailTime
    requires HitDeque(email, EMAIL_LIMIT, WINDOW_SECONDS, c.emailTime).1.Accepted?
    ensures Covered(NextEntries(entries, key, place, c, verdict),
      HitDeque(email, EMAIL_LIMIT, WINDOW_SECONDS, c.emailTime).0, c.emailTime)
  {
    var after := HitDeque(email, EMAIL_LIMIT, WINDOW_SECONDS, c.emailTime).0;
    var next := NextEntries(entries, key, place, c, verdict);
    var live := Live(entries, c.pairTime);
    LiveTimes(entries, c.pairTime);
    forall lo: real | lo >= c.emailTime - WINDOW_SECONDS as real
      ensures CountFrom(EmailTimes(next), lo) <= CountFrom(after, lo)
    {
      HitCount(email, EMAIL_LIMIT, c.emailTime, lo);
      DropCountsLess(EmailTimes(entries), ExpiredFrom(PairTimes(entries), 0, WINDOW_SECONDS, c.pairTime), lo);
      CountFromAppend(EmailTimes(live), c.emailTime, lo);
      assert EmailTimes(live + [Entry(place, c)]) == EmailTimes(live) + [c.emailTime];
    }
  }

  /** Only a refusal by the email limiter itself means that it took no hit. */
  lemma StepEmailVerdict(s: Limiters, c: Check)
    ensures
      var mail := DequeOf(s.perEmail, EmailKey(c.email));
      var accepted := HitDeque(mail, EMAIL_LIMIT, WINDOW_SECONDS, c.emailTime).1.Accepted?;
      !accepted <==> CheckStep(s, c).1.Raised? && CheckStep(s, c).1.limiter.ByEmail?
  {
    StepEmailEvents(s, c);
    HitKeyDeque(s.perEmail, EMAIL_LIMIT, EmailKey(c.email), c.emailTime, EmailKey(c.email));
  }

  lemma VerdictKeepsCovered(entries: seq<Entry>, mail: seq<real>, latest: real, c: Check, key: string, place: nat,
                            verdict: CheckVerdict)
    requires latest <= c.emailTime && Covered(entries, mail, latest)
    requires
      var accepted := HitDeque(mail, EMAIL_LIMIT, WINDOW_SECONDS, c.emailTime).1.Accepted?;
      !accepted <==> verdict.Raised? && verdict.limiter.ByEmail?
    ensures Covered(NextEntries(entries, key, place, c, verdict),
      HitDeque(mail, EMAIL_LIMIT, WINDOW_SECONDS, c.emailTime).0, c.emailTime)
  {
    if verdict.Raised? && verdict.limiter.ByEmail? {
      EmailHitCovers(entries, mail, latest, c.emailTime);
    } else {
      NextEntriesCovered(entries, mail, latest, c, key, place, verdict);
    }
  }

  lemma StepKeepsCovered(s: Limiters, c: Check, latest: real, key: string, email: string, entries: seq<Entry>,
                         place: nat)
    requires latest <= c.emailTime && Covered(entries, DequeOf(s.perEmail, EmailKey(email)), latest)
    requires PairKey(c.ip, c.email) == key ==> EmailKey(c.email) == EmailKey(email)
    ensures Covered(NextEntries(entries, key, place, c, CheckStep(s, c).1),
      DequeOf(CheckStep(s, c).0.perEmail, EmailKey(email)), c.emailTime)
  {
    StepEmailEvents(s, c);
    HitKeyDeque(s.perEmail, EMAIL_LIMIT, EmailKey(c.email), c.emailTime, EmailKey(email));
    if EmailKey(c.email) == EmailKey(email) {
      StepEmailVerdict(s, c);
      VerdictKeepsCovered(entries, DequeOf(s.perEmail, EmailKey(email)), latest, c, key, place, CheckStep(s, c).1);
    }
  }

  lemma HitKeyKeepsSteady(events: Events, hit: string, latest: real, now: real, key: string)
    requires latest <= now && Steady(DequeOf(events, key), latest)
    ensures Steady(DequeOf(HitKey(events, EMAIL_LIMIT, WINDOW_SECONDS, hit, now).0, key), now)
  {
    HitKeyDeque(events, EMAIL_LIMIT, hit, now, key);
    HitStaysSteady(DequeOf(events, key), EMAIL_LIMIT, latest, now);
  }

  lemma StepKeepsSteady(s: Limiters, c: Check, key: string)
    requires Steady(DequeOf(s.perEmail, key), c.emailTime)
    ensures Steady(DequeOf(CheckStep(s, c).0.perEmail, key), c.emailTime)
  {
    StepEmailEvents(s, c);
    HitKeyKeepsSteady(s.perEmail, EmailKey(c.email), c.emailTime, c.emailTime, key);
  }

  /** After any checks the email deque is in order and covers the entries of each of its pairs. */
  lemma {:induction false} RunKeepsCovered(checks: seq<Check>, latest: real, ip: Option<string>, email: string)
    requires ColonFree(checks) && EmailClockAscends(checks) && ':' !in email
    requires forall i | 0 <= i < |checks| :: checks[i].emailTime <= latest
    ensures Steady(DequeOf(RunChecks(checks).0.perEmail, EmailKey(email)), latest)
    ensures Covered(Entries(checks, PairKey(ip, email)), DequeOf(RunChecks(checks).0.perEmail, EmailKey(email)), latest)
  {
    if checks != [] {
      var n := |checks| - 1;
      var c := checks[n];
      RunKeepsCovered(checks[..n], c.emailTime, ip, email);
      if PairKey(c.ip, c.email) == PairKey(ip, email) {
        PairKeysAreInjective(c.ip, c.email, ip, email);
      }
      var s := RunChecks(checks[..n]).0;
      StepKeepsSteady(s, c, EmailKey(email));
      StepKeepsCovered(s, c, c.emailTime, PairKey(ip, email), email, Entries(checks[..n], PairKey(ip, email)), n);
    }
  }

  // Refusals of the pair limiter ----------------------------------------------------------------------------

  /** How long after the email limiter's reading of the clock the pair limiter takes its own. */
  function Lag(c: Check): real {
    c.pairTime - c.emailTime
  }

  /** With fewer email entries than the limit but no fewer live pair entries, the oldest of these predates it. */
  lemma OldestPredatesWindow(live: seq<Entry>, email: seq<real>, now: real)
    requires |live| >= PAIR_LIMIT && Steady(email, now) && Covered(live, email, now)
    requires HitDeque(email, EMAIL_LIMIT, WINDOW_SECONDS, now).1.Accepted?
    requires forall i | 0 <= i < |live| :: live[0].check.emailTime <= live[i].check.emailTime
    ensures live[0].check.emailTime < now - WINDOW_SECONDS as real
  {
    var lo := now - WINDOW_SECONDS as real;
    AllLiveCount(email, now, now);
    if live[0].check.emailTime >= lo {
      CountFromBounds(EmailTimes(live), lo);
    }
  }

  lemma LiveIsCovered(entries: seq<Entry>, email: seq<real>, latest: real, now: real)
    requires Covered(entries, email, latest)
    ensures Covered(Live(entries, now), email, latest)
  {
    LiveTimes(entries, now);
    forall lo: real | lo >= latest - WINDOW_SECONDS as real
      ensures CountFrom(EmailTimes(Live(entries, now)), lo) <= CountFrom(email, lo)
    {
      DropCountsLess(EmailTimes(entries), ExpiredFrom(PairTimes(entries), 0, WINDOW_SECONDS, now), lo);
    }
  }

  lemma EntriesAscend(checks: seq<Check>, key: string, entries: seq<Entry>)
    requires EmailClockAscends(checks) && AreEntries(checks, key, entries)
    ensures forall i, j | 0 <= i < j < |entries| :: entries[i].check.emailTime <= entries[j].check.emailTime
  {
    forall i, j | 0 <= i < j < |entries|
      ensures entries[i].check.emailTime <= entries[j].check.emailTime
    {
      assert IsEntry(checks, key, entries[i]) && IsEntry(checks, key, entries[j]);
    }
  }

  /** What a refusal by the pair limiter reports. */
  lemma PairVerdict(s: Limiters, c: Check, entries: seq<Entry>)
    requires DequeOf(s.perPair, PairKey(c.ip, c.email)) == PairTimes(entries)
    requires CheckStep(s, c).1.Raised? && CheckStep(s, c).1.limiter.ByPair?
    ensures HitDeque(DequeOf(s.perEmail, EmailKey(c.email)), EMAIL_LIMIT, WINDOW_SECONDS, c.emailTime).1.Accepted?
    ensures
      var live := Live(entries, c.pairTime);
      && |live| >= PAIR_LIMIT && c.pairTime - live[0].check.pairTime <= WINDOW_SECONDS as real
      && CheckStep(s, c).1.verdict == Limited(live[0].check.pairTime + WINDOW_SECONDS as real - c.pairTime)
  {
    LiveTimes(entries, c.pairTime);
  }

  /**
   * A refusal by the pair limiter is due to the clock alone: its wait is shorter than the time by which the
   * lag between the two readings has shrunk since the oldest live entry of the pair.
   */
  lemma PairRefusalIsLag(checks: seq<Check>, i: nat) returns (first: nat)
    requires ColonFree(checks) && EmailClockAscends(checks) && i < |checks|
    requires |RunChecks(checks).1| == |checks|
    requires RunChecks(checks).1[i].Raised? && RunChecks(checks).1[i].limiter.ByPair?
    ensures first < i && RunChecks(checks).1[first].Allowed?
    ensures PairKey(checks[first].ip, checks[first].email) == PairKey(checks[i].ip, checks[i].email)
    ensures RunChecks(checks).1[i].verdict ==
      Limited(checks[first].pairTime + WINDOW_SECONDS as real - checks[i].pairTime)
    ensures 0.0 <= RunChecks(checks).1[i].verdict.retryAfter < Lag(checks[first]) - Lag(checks[i])
  {
    VerdictAt(checks, i);
    var oldest := RefusingEntry(RunChecks(checks[..i]).0, checks[..i], checks[i]);
    first := oldest.place;
    EntryIsCheck(checks, i, PairKey(checks[i].ip, checks[i].email), oldest);
  }

  lemma EntryIsCheck(checks: seq<Check>, i: nat, key: string, e: Entry)
    requires i <= |checks| && IsEntry(checks[..i], key, e)
    ensures e.place < i && e.check == checks[e.place] && PairKey(e.check.ip, e.check.email) == key
    ensures |RunChecks(checks).1| == |checks| && RunChecks(checks).1[e.place] == Allowed
  {
    VerdictAt(checks, e.place);
    assert checks[..i][..e.place] == checks[..e.place];
  }

  /** The oldest live entry behind a refusal, and the wait that it causes. */
  lemma RefusingEntry(s: Limiters, before: seq<Check>, c: Check) returns (oldest: Entry)
    requires s == RunChecks(before).0
    requires ColonFree(before) && EmailClockAscends(before) && ':' !in c.email
    requires forall i | 0 <= i < |before| :: before[i].emailTime <= c.emailTime
    requires CheckStep(s, c).1.Raised? && CheckStep(s, c).1.limiter.ByPair?
    ensures IsEntry(before, PairKey(c.ip, c.email), oldest)
    ensures CheckStep(s, c).1.verdict ==
      Limited(oldest.check.pairTime + WINDOW_SECONDS as real - c.pairTime)
    ensures c.pairTime - oldest.check.pairTime <= WINDOW_SECONDS as real
    ensures oldest.check.emailTime < c.emailTime - WINDOW_SECONDS as real
  {
    RefusalMeans(s, before, c);
    oldest := OldestEntry(s, before, c);
  }

  /** What a refusal by the pair limiter says about the entries before it. */
  lemma RefusalMeans(s: Limiters, before: seq<Check>, c: Check)
    requires s == RunChecks(before).0 && CheckStep(s, c).1.Raised? && CheckStep(s, c).1.limiter.ByPair?
    ensures HitDeque(DequeOf(s.perEmail, EmailKey(c.email)), EMAIL_LIMIT, WINDOW_SECONDS, c.emailTime).1.Accepted?
    ensures
      var live := Live(Entries(before, PairKey(c.ip, c.email)), c.pairTime);
      && |live| >= PAIR_LIMIT && c.pairTime - live[0].check.pairTime <= WINDOW_SECONDS as real
      && CheckStep(s, c).1.verdict == Limited(live[0].check.pairTime + WINDOW_SECONDS as real - c.pairTime)
  {
    PairDequeIs(before, PairKey(c.ip, c.email));
    PairVerdict(s, c, Entries(before, PairKey(c.ip, c.email)));
  }

  /** The oldest live entry when the email limiter lets a check through that the pair limiter refuses. */
  lemma OldestEntry(s: Limiters, before: seq<Check>, c: Check) returns (oldest: Entry)
    requires s == RunChecks(before).0
    requires ColonFree(before) && EmailClockAscends(before) && ':' !in c.email
    requires forall i | 0 <= i < |before| :: before[i].emailTime <= c.emailTime
    requires |Live(Entries(before, PairKey(c.ip, c.email)), c.pairTime)| >= PAIR_LIMIT
    requires HitDeque(DequeOf(s.perEmail, EmailKey(c.email)), EMAIL_LIMIT, WINDOW_SECONDS, c.emailTime).1.Accepted?
    ensures oldest == Live(Entries(before, PairKey(c.ip, c.email)), c.pairTime)[0]
    ensures IsEntry(before, PairKey(c.ip, c.email), oldest)
    ensures oldest.check.emailTime < c.emailTime - WINDOW_SECONDS as real
  {
    var key := PairKey(c.ip, c.email);
    var entries := Entries(before, key);
    var email := DequeOf(s.perEmail, EmailKey(c.email));
    RunKeepsCovered(before, c.emailTime, c.ip, c.email);
    EntriesAre(before, key);
    EntriesAscend(before, key, entries);
    assert forall i | 0 <= i < |entries| :: IsEntry(before, key, entries[i]);
    OldestLivePredates(entries, email, c.emailTime, c.pairTime);
    oldest := Live(entries, c.pairTime)[0];
    assert oldest in entries;
  }

  lemma OldestLivePredates(entries: seq<Entry>, email: seq<real>, now: real, pairNow: real)
    requires Steady(email, now) && Covered(entries, email, now) && |Live(entries, pairNow)| >= PAIR_LIMIT
    requires HitDeque(email, EMAIL_LIMIT, WINDOW_SECONDS, now).1.Accepted?
    requires forall i, j | 0 <= i < j < |entries| :: entries[i].check.emailTime <= entries[j].check.emailTime
    ensures Live(entries, pairNow)[0] in entries
    ensures Live(entries, pairNow)[0].check.emailTime < now - WINDOW_SECONDS as real
  {
    LiveIsCovered(entries, email, now, pairNow);
    var live := Live(entries, pairNow);
    var k := ExpiredFrom(PairTimes(entries), 0, WINDOW_SECONDS, pairNow);
    assert live[0] == entries[k] && forall i | 0 <= i < |live| :: live[i] == entries[k + i];
    OldestPredatesWindow(live, email, now);
  }

  /** The lag between the two readings never shrinks from one check to a later one. */
  ghost predicate LagNeverShrinks(checks: seq<Check>) {
    forall i, j | 0 <= i < j < |checks| :: Lag(checks[i]) <= Lag(checks[j])
  }

  predicate PairRefuses(checks: seq<Check>, i: nat) {
    i < |RunChecks(checks).1| && RunChecks(checks).1[i].Raised? && RunChecks(checks).1[i].limiter.ByPair?
  }

  /** While the lag does not shrink, it is never the pair limiter that refuses. */
  lemma PairLimiterIsRedundant(checks: seq<Check>, i: nat)
    requires ColonFree(checks) && EmailClockAscends(checks) && LagNeverShrinks(checks) && i < |checks|
    ensures |RunChecks(checks).1| == |checks|
    ensures !PairRefuses(checks, i)
  {
    OneVerdictEach(checks);
    if PairRefuses(checks, i) {
      var first := PairRefusalIsLag(checks, i);
      assert false;
    }
  }

  /** One clock reading per check, never going back. */
  ghost predicate OneReadingEach(checks: seq<Check>) {
    && (forall i | 0 <= i < |checks| :: checks[i].emailTime == checks[i].ipTime == checks[i].pairTime)
    && EmailClockAscends(checks)
  }

  /** With one clock reading per check the pair limiter never refuses. */
  lemma OneReadingNeverRefuses(checks: seq<Check>, i: nat)
    requires ColonFree(checks) && OneReadingEach(checks) && i < |checks|
    ensures |RunChecks(checks).1| == |checks|
    ensures !PairRefuses(checks, i)
  {
    PairLimiterIsRedundant(checks, i);
  }

  // Two runs in which the pair limiter does refuse -----------------------------------------------------------

  function Same(t: real, n: nat): seq<real> {
    seq(n, _ => t)
  }

  /** The three deques behind a check hold these numbers of hits at the check's own times. */
  ghost predicate Hold(s: Limiters, c: Check, mail: nat, ip: nat, pair: nat) {
    && DequeOf(s.perEmail, EmailKey(c.email)) == Same(c.emailTime, mail)
    && DequeOf(s.perIp, IpKey(c.ip)) == Same(c.ipTime, ip)
    && DequeOf(s.perPair, PairKey(c.ip, c.email)) == Same(c.pairTime, pair)
  }

  lemma HitAtSameTime(t: real, n: nat, limit: int)
    requires n < limit
    ensures HitDeque(Same(t, n), limit, WINDOW_SECONDS, t) == (Same(t, n + 1), Accepted)
  {
    assert ExpiredFrom(Same(t, n), 0, WINDOW_SECONDS, t) == 0;
    assert Same(t, n)[0..] + [t] == Same(t, n + 1);
  }

  /** A check at the same times as the ones before it passes while all three deques are short. */
  lemma PassesAtSameTime(s: Limiters, c: Check, mail: nat, ip: nat, pair: nat)
    requires Hold(s, c, mail, ip, pair) && mail < EMAIL_LIMIT && ip < IP_LIMIT && pair < PAIR_LIMIT
    ensures CheckStep(s, c).1 == Allowed && Hold(CheckStep(s, c).0, c, mail + 1, ip + 1, pair + 1)
  {
    HitAtSameTime(c.emailTime, mail, EMAIL_LIMIT);
    HitAtSameTime(c.ipTime, ip, IP_LIMIT);
    HitAtSameTime(c.pairTime, pair, PAIR_LIMIT);
  }

  /** The same check n times over. */
  function Repeated(c: Check, n: nat): seq<Check> {
    seq(n, _ => c)
  }

  lemma {:induction false} RepeatedPass(c: Check, n: nat)
    requires n <= PAIR_LIMIT
    ensures Hold(RunChecks(Repeated(c, n)).0, c, n, n, n)
  {
    if n == 0 {
      assert Repeated(c, 0) == [];
    } else {
      RepeatedPass(c, n - 1);
      assert Repeated(c, n)[..n - 1] == Repeated(c, n - 1);
      PassesAtSameTime(RunChecks(Repeated(c, n - 1)).0, c, n - 1, n - 1, n - 1);
    }
  }

  lemma AllExpired(t: real, n: nat, now: real)
    requires now - t > WINDOW_SECONDS as real
    ensures DropExpired(Same(t, n), WINDOW_SECONDS, now) == []
  {
    assert forall i | 0 <= i < n :: Same(t, n)[i] == t;
  }

  /** Five checks of one lag, and one of a shorter lag just after the email limiter let its entries go. */
  function ShrinkingRun(email: string, ip: Option<string>, before: real, after: real, wait: real): seq<Check> {
    var late := WINDOW_SECONDS as real + (before - after) - wait;
    Repeated(Check(email, ip, 0.0, 0.0, before), 5) + [Check(email, ip, late, late, late + after)]
  }

  /**
   * Every shrinking lag can make the pair limiter refuse, with every wait below the difference, for every email and
   * address: no smaller bound on its wait holds.
   */
  lemma ShrinkingLagRefuses(email: string, ip: Option<string>, before: real, after: real, wait: real)
    requires ':' !in email
    requires 0.0 <= after < before && 0.0 <= wait < before - after && wait <= WINDOW_SECONDS as real
    ensures
      var checks := ShrinkingRun(email, ip, before, after, wait);
      && ColonFree(checks) && EmailClockAscends(checks) && ReadInOrder(checks)
      && |checks| == 6 && Lag(checks[5]) == after && (forall i | 0 <= i < 5 :: Lag(checks[i]) == before)
      && |RunChecks(checks).1| == 6 && RunChecks(checks).1[5] == Raised(ByPair, Limited(wait))
  {
    ShrinkingRunIs(email, ip, before, after, wait);
    LastAfterFive(ShrinkingRun(email, ip, before, after, wait));
  }

  lemma ShrinkingRunIs(email: string, ip: Option<string>, before: real, after: real, wait: real)
    requires ':' !in email
    requires 0.0 <= after < before && 0.0 <= wait < before - after && wait <= WINDOW_SECONDS as real
    ensures
      var checks := ShrinkingRun(email, ip, before, after, wait);
      && |checks| == 6 && checks[..5] == Repeated(checks[0], 5)
      && (forall i | 0 <= i < 6 :: checks[i].email == email && checks[i].ip == ip)
      && (forall i | 0 <= i < 5 :: checks[i] == checks[0])
      && EmailClockAscends(checks) && ReadInOrder(checks)
  {
  }

  /** Five equal checks, and a sixth that finds only the pair deque full. */
  lemma LastAfterFive(checks: seq<Check>)
    requires |checks| == 6 && checks[..5] == Repeated(checks[0], 5)
    requires checks[5].email == checks[0].email && checks[5].ip == checks[0].ip
    requires checks[5].emailTime - checks[0].emailTime > WINDOW_SECONDS as real
    requires checks[5].ipTime - checks[0].ipTime > WINDOW_SECONDS as real
    requires 0.0 <= checks[5].pairTime - checks[0].pairTime <= WINDOW_SECONDS as real
    ensures |RunChecks(checks).1| == 6 && RunChecks(checks).1[5] ==
      Raised(ByPair, Limited(checks[0].pairTime + WINDOW_SECONDS as real - checks[5].pairTime))
  {
    RepeatedPass(checks[0], 5);
    VerdictAt(checks, 5);
    LateIsRefused(RunChecks(Repeated(checks[0], 5)).0, checks[0], checks[5]);
  }

  ghost predicate LagsRelate(checks: seq<Check>, related: (real, real) -> bool) {
    forall i, j | 0 <= i < j < |checks| :: related(Lag(checks[i]), Lag(checks[j]))
  }

  /**
   * A relation between earlier and later lags that lets a lag repeat, and rules such refusals out, lets it never be
   * followed by a shorter one.
   */
  lemma NoWeakerCondition(related: (real, real) -> bool, before: real, after: real)
    requires forall checks, i | ColonFree(checks) && EmailClockAscends(checks) && ReadInOrder(checks)
      && LagsRelate(checks, related) :: !PairRefuses(checks, i)
    requires 0.0 <= after && related(before, before) && related(before, after)
    ensures before <= after
  {
    if after < before {
      ShrinkingLagRefuses("", None, before, after, 0.0);
      assert PairRefuses(ShrinkingRun("", None, before, after, 0.0), 5);
    }
  }

  lemma {:induction false} PlacesGrow(entries: seq<Entry>, k: nat)
    requires k < |entries| && forall i, j | 0 <= i < j < |entries| :: entries[i].place < entries[j].place
    ensures entries[k].place >= k
  {
    if k > 0 {
      PlacesGrow(entries, k - 1);
    }
  }

  /** A refusal by the pair limiter has as many checks before it as the limit says. */
  lemma RefusalComesLate(checks: seq<Check>, i: nat)
    requires i < |checks| && PairRefuses(checks, i)
    ensures i >= PAIR_LIMIT
  {
    VerdictAt(checks, i);
    RefusalMeans(RunChecks(checks[..i]).0, checks[..i], checks[i]);
    var key := PairKey(checks[i].ip, checks[i].email);
    var entries := Entries(checks[..i], key);
    EntriesAre(checks[..i], key);
    PlacesGrow(entries, |entries| - 1);
    assert IsEntry(checks[..i], key, entries[|entries| - 1]);
  }

  predicate FallsOnce(earlier: real, later: real) {
    earlier == 3.0 && later == 1.0
  }

  lemma FallsBetween(checks: seq<Check>, i: nat, j: nat)
    requires LagsRelate(checks, FallsOnce) && i < j < |checks|
    ensures Lag(checks[i]) == 3.0 && Lag(checks[j]) == 1.0
  {
    assert FallsOnce(Lag(checks[i]), Lag(checks[j]));
  }

  /** Without the repeated lag this fails: a relation that no three checks satisfy lets a lag shrink at no risk. */
  lemma RepeatIsNeeded(checks: seq<Check>, i: nat)
    requires LagsRelate(checks, FallsOnce) && i < |checks|
    ensures !PairRefuses(checks, i)
  {
    if PairRefuses(checks, i) {
      RefusalComesLate(checks, i);
      FallsBetween(checks, 0, 1);
      FallsBetween(checks, 1, 2);
    }
  }

  /** Each check reads the clock for the email, then for the address, then for the pair. */
  ghost predicate ReadInOrder(checks: seq<Check>) {
    forall i | 0 <= i < |checks| :: checks[i].emailTime <= checks[i].ipTime <= checks[i].pairTime
  }

  /** A full window of equal checks: expired for the email and the address, not yet for the pair. */
  lemma LateIsRefused(s: Limiters, early: Check, late: Check)
    requires Hold(s, early, 5, 5, 5) && late.email == early.email && late.ip == early.ip
    requires late.emailTime - early.emailTime > WINDOW_SECONDS as real
    requires late.ipTime - early.ipTime > WINDOW_SECONDS as real
    requires 0.0 <= late.pairTime - early.pairTime <= WINDOW_SECONDS as real
    ensures CheckStep(s, late).1 ==
      Raised(ByPair, Limited(early.pairTime + WINDOW_SECONDS as real - late.pairTime))
  {
    AllExpired(early.emailTime, 5, late.emailTime);
    AllExpired(early.ipTime, 5, late.ipTime);
    assert ExpiredFrom(Same(early.pairTime, 5), 0, WINDOW_SECONDS, late.pairTime) == 0;
    assert Same(early.pairTime, 5)[0..] == Same(early.pairTime, 5);
  }

  const COLON_EMAIL := Check("y:x", Some("1"), 0.0, 0.0, 0.0)
  const COLON_ADDRESS := Check("x", Some("1:y"), 0.0, 0.0, 0.0)

  lemma ColonKeys()
    ensures PairKey(COLON_EMAIL.ip, COLON_EMAIL.email) == PairKey(COLON_ADDRESS.ip, COLON_ADDRESS.email)
    ensures EmailKey(COLON_EMAIL.email) != EmailKey(COLON_ADDRESS.email)
    ensures IpKey(COLON_EMAIL.ip) != IpKey(COLON_ADDRESS.ip)
  {
    assert Lower("y:x") == "y:x" && Lower("x") == "x";
    assert "pair:" + "1" + ":" + "y:x" == "pair:" + "1:y" + ":" + "x";
    assert |EmailKey("y:x")| == 9 && |EmailKey("x")| == 7;
    assert |IpKey(Some("1"))| == 4 && |IpKey(Some("1:y"))| == 6;
  }

  lemma StepLeavesOthers(s: Limiters, c: Check, email: string, ip: string)
    requires EmailKey(c.email) != email && IpKey(c.ip) != ip
    ensures DequeOf(CheckStep(s, c).0.perEmail, email) == DequeOf(s.perEmail, email)
    ensures DequeOf(CheckStep(s, c).0.perIp, ip) == DequeOf(s.perIp, ip)
  {
  }

  /** Repeating a check leaves the email and address deques of another check empty. */
  lemma {:induction false} OtherKeysStayEmpty(c: Check, n: nat, d: Check)
    requires EmailKey(c.email) != EmailKey(d.email) && IpKey(c.ip) != IpKey(d.ip)
    ensures DequeOf(RunChecks(Repeated(c, n)).0.perEmail, EmailKey(d.email)) == []
    ensures DequeOf(RunChecks(Repeated(c, n)).0.perIp, IpKey(d.ip)) == []
  {
    if n == 0 {
      assert Repeated(c, 0) == [];
    } else {
      OtherKeysStayEmpty(c, n - 1, d);
      StepLeavesOthers(RunChecks(Repeated(c, n - 1)).0, c, EmailKey(d.email), IpKey(d.ip));
      assert Repeated(c, n)[..n - 1] == Repeated(c, n - 1);
    }
  }

  lemma OneMoreCheck(checks: seq<Check>, c: Check)
    ensures RunChecks(checks + [c]).0 == CheckStep(RunChecks(checks).0, c).0
  {
    assert (checks + [c])[..|checks|] == checks;
  }

  /** With its pair deque full a check is refused for the whole window. */
  lemma RefusedAtSameTime(s: Limiters, c: Check, mail: nat, ip: nat)
    requires Hold(s, c, mail, ip, PAIR_LIMIT) && mail < EMAIL_LIMIT && ip < IP_LIMIT
    ensures CheckStep(s, c).1 == Raised(ByPair, Limited(WINDOW_SECONDS as real))
  {
    HitAtSameTime(c.emailTime, mail, EMAIL_LIMIT);
    HitAtSameTime(c.ipTime, ip, IP_LIMIT);
    assert ExpiredFrom(Same(c.pairTime, PAIR_LIMIT), 0, WINDOW_SECONDS, c.pairTime) == 0;
    assert Same(c.pairTime, PAIR_LIMIT)[0..] == Same(c.pairTime, PAIR_LIMIT);
  }

  /** With room for two more entries in its pair deque, a check repeated three times is refused the third time. */
  lemma ThirdIsRefused(before: seq<Check>, d: Check)
    requires Hold(RunChecks(before).0, d, 0, 0, 3)
    ensures |RunChecks(before + [d] + [d] + [d]).1| == |before| + 3
    ensures RunChecks(before + [d] + [d] + [d]).1[|before| + 2] == Raised(ByPair, Limited(WINDOW_SECONDS as real))
  {
    PassesAtSameTime(RunChecks(before).0, d, 0, 0, 3);
    OneMoreCheck(before, d);
    PassesAtSameTime(RunChecks(before + [d]).0, d, 1, 1, 4);
    OneMoreCheck(before + [d], d);
    RefusedAtSameTime(RunChecks(before + [d] + [d]).0, d, 2, 2);
    LastVerdict(before + [d] + [d], d);
  }

  lemma LastVerdict(checks: seq<Check>, d: Check)
    ensures |RunChecks(checks + [d]).1| == |checks| + 1
    ensures RunChecks(checks + [d]).1[|checks|] == CheckStep(RunChecks(checks).0, d).1
  {
    VerdictAt(checks + [d], |checks|);
    assert (checks + [d])[..|checks|] == checks;
  }

  lemma MergedStart()
    ensures Hold(RunChecks(Repeated(COLON_EMAIL, 3)).0, COLON_ADDRESS, 0, 0, 3)
  {
    ColonKeys();
    RepeatedPass(COLON_EMAIL, 3);
    OtherKeysStayEmpty(COLON_EMAIL, 3, COLON_ADDRESS);
    assert Same(0.0, 0) == [];
  }

  lemma SixChecks(checks: seq<Check>, before: seq<Check>, d: Check)
    requires |checks| == 6 && checks[..3] == before && checks[3] == checks[4] == checks[5] == d
    ensures checks == before + [d] + [d] + [d]
  {
  }

  /**
   * A ':' in an email merges two pairs: three checks of each fill one pair deque, and the sixth is refused
   * although no email, no address and no pair has been checked more than three times.
   */
  lemma ColonMergesPairs(checks: seq<Check>)
    requires |checks| == 6 && checks[..3] == Repeated(COLON_EMAIL, 3)
    requires checks[3] == checks[4] == checks[5] == COLON_ADDRESS
    ensures OneReadingEach(checks)
    ensures |RunChecks(checks).1| == 6
    ensures RunChecks(checks).1[5] == Raised(ByPair, Limited(WINDOW_SECONDS as real))
  {
    MergingRunReadsOnce(checks);
    MergedStart();
    ThirdIsRefused(Repeated(COLON_EMAIL, 3), COLON_ADDRESS);
    SixChecks(checks, Repeated(COLON_EMAIL, 3), COLON_ADDRESS);
  }

  lemma MergingRunReadsOnce(checks: seq<Check>)
    requires |checks| == 6 && checks[..3] == Repeated(COLON_EMAIL, 3)
    requires checks[3] == checks[4] == checks[5] == COLON_ADDRESS
    ensures OneReadingEach(checks)
  {
    forall i | 0 <= i < 6
      ensures checks[i].emailTime == checks[i].ipTime == checks[i].pairTime == 0.0
    {
      if i < 3 {
        assert checks[i] == checks[..3][i];
      }
    }
  }
}
