/** The verdicts of the three limiters read off the earlier checks: who is refused, by which limiter, for how long. */
module CheckVerdicts {
  import opened Prelude
  import opened SlidingWindow
  import opened WatchedLimiter
  import opened CompositeLimiter

  // Which checks share a limit ----------------------------------------------------------------------

  predicate SameLetter(a: char, b: char) {
    a == b || ('A' <= a <= 'Z' && b as int == a as int + 32) || ('A' <= b <= 'Z' && a as int == b as int + 32)
  }

  /** Equal up to the case of letters. */
  predicate SameEmail(a: string, b: string) {
    |a| == |b| && forall i | 0 <= i < |a| :: SameLetter(a[i], b[i])
  }

  /** No address, an empty one and the literal "unknown" are one address. */
  predicate SameAddress(a: Option<string>, b: Option<string>) {
    var nowhere := {None, Some(""), Some("unknown")};
    a == b || (a in nowhere && b in nowhere)
  }

  lemma SameAddressIff(a: Option<string>, b: Option<string>)
    ensures IpText(a) == IpText(b) <==> SameAddress(a, b)
  {
  }

  lemma SameEmailIff(a: string, b: string)
    ensures Lower(a) == Lower(b) <==> SameEmail(a, b)
  {
    if SameEmail(a, b) {
      assert Lower(a) == Lower(b);
    }
    if Lower(a) == Lower(b) {
      forall i | 0 <= i < |a|
        ensures SameLetter(a[i], b[i])
      {
        assert Lower(a)[i] == Lower(b)[i];
      }
    }
  }

  function KeyOf(w: Which, c: Check): string {
    match w
    case ByEmail => EmailKey(c.email)
    case ByIp => IpKey(c.ip)
    case ByPair => PairKey(c.ip, c.email)
  }

  function TimeOf(w: Which, c: Check): real {
    match w
    case ByEmail => c.emailTime
    case ByIp => c.ipTime
    case ByPair => c.pairTime
  }

  /** The two checks count against the same limit. */
  predicate Shares(w: Which, a: Check, b: Check) {
    match w
    case ByEmail => SameEmail(a.email, b.email)
    case ByIp => SameAddress(a.ip, b.ip)
    case ByPair => SameAddress(a.ip, b.ip) && SameEmail(a.email, b.email)
  }

  lemma EmailKeyIff(a: string, b: string)
    ensures EmailKey(a) == EmailKey(b) <==> SameEmail(a, b)
  {
    SameEmailIff(a, b);
    assert EmailKey(a)[6..] == Lower(a) && EmailKey(b)[6..] == Lower(b);
  }

  lemma IpKeyIff(a: Option<string>, b: Option<string>)
    ensures IpKey(a) == IpKey(b) <==> SameAddress(a, b)
  {
    SameAddressIff(a, b);
    assert IpKey(a)[3..] == IpText(a) && IpKey(b)[3..] == IpText(b);
  }

  lemma PairKeyIff(a: Check, b: Check)
    requires ':' !in a.email && ':' !in b.email
    ensures PairKey(a.ip, a.email) == PairKey(b.ip, b.email) <==> SameAddress(a.ip, b.ip) && SameEmail(a.email, b.email)
  {
    SameAddressIff(a.ip, b.ip);
    SameEmailIff(a.email, b.email);
    if PairKey(a.ip, a.email) == PairKey(b.ip, b.email) {
      PairKeysAreInjective(a.ip, a.email, b.ip, b.email);
    }
  }

  /** Emails that the pair key keeps apart. */
  ghost predicate Separable(w: Which, checks: seq<Check>) {
    w.ByPair? ==> forall i | 0 <= i < |checks| :: ':' !in checks[i].email
  }

  lemma SharesIff(w: Which, checks: seq<Check>, i: nat, j: nat)
    requires i < |checks| && j < |checks| && Separable(w, checks)
    ensures KeyOf(w, checks[i]) == KeyOf(w, checks[j]) <==> Shares(w, checks[i], checks[j])
  {
    match w
    case ByEmail => EmailKeyIff(checks[i].email, checks[j].email);
    case ByIp => IpKeyIff(checks[i].ip, checks[j].ip);
    case ByPair => PairKeyIff(checks[i], checks[j]);
  }

  // What each limiter sees --------------------------------------------------------------------------

  predicate RefusedBy(w: Which, v: CheckVerdict) {
    v.Raised? && v.limiter == w
  }

  /** The limiters in front of this one let the check through. */
  predicate Reaches(w: Which, v: CheckVerdict) {
    match w
    case ByEmail => true
    case ByIp => !RefusedBy(ByEmail, v)
    case ByPair => !RefusedBy(ByEmail, v) && !RefusedBy(ByIp, v)
  }

  /** The check has an entry in this limiter. */
  predicate Takes(w: Which, v: CheckVerdict) {
    Reaches(w, v) && !RefusedBy(w, v)
  }

  /** 5 an hour for an email, 20 for an address, 5 for a pair. */
  function Allowance(w: Which): nat {
    match w
    case ByEmail => 5
    case ByIp => 20
    case ByPair => 5
  }

  function EventsOf(s: Limiters, w: Which): Events {
    match w
    case ByEmail => s.perEmail
    case ByIp => s.perIp
    case ByPair => s.perPair
  }

  function Sight(w: Which, c: Check, v: CheckVerdict): Sighting {
    Sighting(KeyOf(w, c), TimeOf(w, c), Reaches(w, v), Takes(w, v), if v.Raised? then v.verdict else Accepted)
  }

  /** A sequence of checks with their verdicts, as one limiter sees it. */
  function Sights(w: Which, checks: seq<Check>, verdicts: seq<CheckVerdict>): (xs: seq<Sighting>)
    requires |verdicts| == |checks|
    ensures |xs| == |checks|
  {
    seq(|checks|, i requires 0 <= i < |checks| => Sight(w, checks[i], verdicts[i]))
  }

  lemma StepIsSeen(w: Which, s: Limiters, c: Check)
    ensures SeenBy(Allowance(w), EventsOf(s, w), Sight(w, c, CheckStep(s, c).1), EventsOf(CheckStep(s, c).0, w))
  {
    match w
    case ByEmail => StepEmailEvents(s, c);
    case ByIp => StepIpEvents(s, c);
    case ByPair => StepPairEvents(s, c);
  }

  lemma SightsAppend(w: Which, checks: seq<Check>, verdicts: seq<CheckVerdict>, c: Check, v: CheckVerdict)
    requires |verdicts| == |checks|
    ensures Sights(w, checks + [c], verdicts + [v]) == Sights(w, checks, verdicts) + [Sight(w, c, v)]
  {
  }

  lemma {:induction false} RunIsWatched(w: Which, checks: seq<Check>) returns (events: seq<Events>)
    ensures |RunChecks(checks).1| == |checks|
    ensures Watches(Allowance(w), Sights(w, checks, RunChecks(checks).1), events)
    ensures events[|checks|] == EventsOf(RunChecks(checks).0, w)
  {
    OneVerdictEach(checks);
    if checks == [] {
      events := [map[]];
    } else {
      var n := |checks| - 1;
      var before := RunIsWatched(w, checks[..n]);
      var (s, verdicts) := RunChecks(checks[..n]);
      var (t, v) := CheckStep(s, checks[n]);
      StepIsSeen(w, s, checks[n]);
      WatchOneMore(Allowance(w), Sights(w, checks[..n], verdicts), before, Sight(w, checks[n], v), EventsOf(t, w));
      SightsAppend(w, checks[..n], verdicts, checks[n], v);
      assert checks == checks[..n] + [checks[n]];
      events := before + [EventsOf(t, w)];
    }
  }

  // The verdicts ----------------------------------------------------------------------------------------

  /** This limiter's clock never goes back. */
  ghost predicate ClockAscends(w: Which, checks: seq<Check>) {
    forall i, j | 0 <= i < j < |checks| :: TimeOf(w, checks[i]) <= TimeOf(w, checks[j])
  }

  /** The earlier checks with an entry that still counts against check i in this limiter. */
  ghost function RecentChecks(w: Which, checks: seq<Check>, verdicts: seq<CheckVerdict>, i: nat): set<nat>
    requires i < |checks| == |verdicts|
  {
    set j: nat | j < i && Shares(w, checks[j], checks[i]) && Takes(w, verdicts[j])
      && TimeOf(w, checks[j]) >= TimeOf(w, checks[i]) - 3600.0
  }

  /** Keys tell which checks share a limit. */
  ghost predicate KeysTell(w: Which, checks: seq<Check>) {
    forall i, j | 0 <= i < |checks| && 0 <= j < |checks| ::
      KeyOf(w, checks[i]) == KeyOf(w, checks[j]) <==> Shares(w, checks[i], checks[j])
  }

  lemma SeparableKeysTell(w: Which, checks: seq<Check>)
    requires Separable(w, checks)
    ensures KeysTell(w, checks)
  {
    forall i, j | 0 <= i < |checks| && 0 <= j < |checks|
      ensures KeyOf(w, checks[i]) == KeyOf(w, checks[j]) <==> Shares(w, checks[i], checks[j])
    {
      SharesIff(w, checks, i, j);
    }
  }

  lemma RecentIs(w: Which, checks: seq<Check>, verdicts: seq<CheckVerdict>, i: nat)
    requires i < |checks| == |verdicts| && KeysTell(w, checks)
    ensures Recent(Sights(w, checks, verdicts), i) == RecentChecks(w, checks, verdicts, i)
  {
    var xs := Sights(w, checks, verdicts);
    forall j: nat | j < i
      ensures j in Recent(xs, i) <==> j in RecentChecks(w, checks, verdicts, i)
    {
      assert xs[j] == Sight(w, checks[j], verdicts[j]) && xs[i] == Sight(w, checks[i], verdicts[i]);
      assert KeyOf(w, checks[j]) == KeyOf(w, checks[i]) <==> Shares(w, checks[j], checks[i]);
    }
  }

  lemma SightsAscend(w: Which, checks: seq<Check>, verdicts: seq<CheckVerdict>)
    requires |verdicts| == |checks| && ClockAscends(w, checks)
    ensures Ascends(Sights(w, checks, verdicts))
  {
  }

  /**
   * A limiter refuses a check exactly if the limiters before it let the check through and its allowance is used up
   * by earlier checks that share the limit, have an entry there, and are at most an hour old.
   */
  lemma RefusedIff(w: Which, checks: seq<Check>, i: nat)
    requires i < |checks| && ClockAscends(w, checks) && Separable(w, checks)
    ensures |RunChecks(checks).1| == |checks|
    ensures
      var verdicts := RunChecks(checks).1;
      RefusedBy(w, verdicts[i]) <==>
        Reaches(w, verdicts[i]) && |RecentChecks(w, checks, verdicts, i)| >= Allowance(w)
  {
    var events := RunIsWatched(w, checks);
    var verdicts := RunChecks(checks).1;
    var xs := Sights(w, checks, verdicts);
    SightsAscend(w, checks, verdicts);
    TakesIff(Allowance(w), xs, events, i);
    SeparableKeysTell(w, checks);
    RecentIs(w, checks, verdicts, i);
    assert xs[i] == Sight(w, checks[i], verdicts[i]);
  }

  /** The three limits of one check, in the order in which they are asked. */
  lemma VerdictsAreExact(checks: seq<Check>, i: nat)
    requires i < |checks| && Separable(ByPair, checks)
    requires ClockAscends(ByEmail, checks) && ClockAscends(ByIp, checks) && ClockAscends(ByPair, checks)
    ensures |RunChecks(checks).1| == |checks|
    ensures
      var verdicts := RunChecks(checks).1;
      var v := verdicts[i];
      var mail := |RecentChecks(ByEmail, checks, verdicts, i)| >= 5;
      var address := |RecentChecks(ByIp, checks, verdicts, i)| >= 20;
      var pair := |RecentChecks(ByPair, checks, verdicts, i)| >= 5;
      && (v.Raised? && v.limiter == ByEmail <==> mail)
      && (v.Raised? && v.limiter == ByIp <==> !mail && address)
      && (v.Raised? && v.limiter == ByPair <==> !mail && !address && pair)
      && (v.Allowed? <==> !mail && !address && !pair)
  {
    RefusedIff(ByEmail, checks, i);
    RefusedIff(ByIp, checks, i);
    RefusedIff(ByPair, checks, i);
  }

  /** The earliest of the recent checks. */
  ghost predicate IsEarliestCheck(w: Which, checks: seq<Check>, verdicts: seq<CheckVerdict>, i: nat, first: nat)
    requires i < |checks| == |verdicts|
  {
    first in RecentChecks(w, checks, verdicts, i)
    && forall j | j in RecentChecks(w, checks, verdicts, i) :: TimeOf(w, checks[first]) <= TimeOf(w, checks[j])
  }

  lemma EarliestIs(w: Which, checks: seq<Check>, verdicts: seq<CheckVerdict>, i: nat, first: nat)
    requires i < |checks| == |verdicts| && KeysTell(w, checks) && IsEarliest(Sights(w, checks, verdicts), i, first)
    ensures IsEarliestCheck(w, checks, verdicts, i, first)
  {
    var xs := Sights(w, checks, verdicts);
    RecentIs(w, checks, verdicts, i);
    forall j | j in RecentChecks(w, checks, verdicts, i)
      ensures TimeOf(w, checks[first]) <= TimeOf(w, checks[j])
    {
      assert xs[first].now <= xs[j].now;
    }
  }

  /** A refused check is told to wait until the earliest of the recent checks is an hour old. */
  lemma RefusedCheckWaits(w: Which, checks: seq<Check>, i: nat) returns (first: nat)
    requires i < |checks| && ClockAscends(w, checks) && Separable(w, checks)
    requires |RunChecks(checks).1| == |checks| && RefusedBy(w, RunChecks(checks).1[i])
    ensures IsEarliestCheck(w, checks, RunChecks(checks).1, i, first)
    ensures RunChecks(checks).1[i].verdict == Limited(TimeOf(w, checks[first]) + 3600.0 - TimeOf(w, checks[i]))
  {
    var events := RunIsWatched(w, checks);
    var verdicts := RunChecks(checks).1;
    var xs := Sights(w, checks, verdicts);
    SightsAscend(w, checks, verdicts);
    first := RefusalWaits(Allowance(w), xs, events, i);
    SeparableKeysTell(w, checks);
    EarliestIs(w, checks, verdicts, i, first);
  }

  // Any hour ----------------------------------------------------------------------------------------------

  /** The checks that share the limit of check i, passed all three limiters, and fall into an interval. */
  ghost function AllowedIn(w: Which, checks: seq<Check>, verdicts: seq<CheckVerdict>, i: nat, lo: real, hi: real)
    : set<nat>
    requires i < |checks| == |verdicts|
  {
    set j: nat | j < |checks| && Shares(w, checks[j], checks[i]) && verdicts[j].Allowed?
      && lo <= TimeOf(w, checks[j]) <= hi
  }

  lemma AllowedAreEntries(w: Which, checks: seq<Check>, verdicts: seq<CheckVerdict>, i: nat, lo: real, hi: real)
    requires i < |checks| == |verdicts| && KeysTell(w, checks)
    ensures AllowedIn(w, checks, verdicts, i, lo, hi) <=
      EntriesIn(KeyOf(w, checks[i]), Sights(w, checks, verdicts), lo, hi)
  {
    var xs := Sights(w, checks, verdicts);
    forall j | j in AllowedIn(w, checks, verdicts, i, lo, hi)
      ensures j in EntriesIn(KeyOf(w, checks[i]), xs, lo, hi)
    {
      assert xs[j] == Sight(w, checks[j], verdicts[j]);
      assert KeyOf(w, checks[j]) == KeyOf(w, checks[i]) <==> Shares(w, checks[j], checks[i]);
    }
  }

  lemma AllowedWithinAllowance(w: Which, checks: seq<Check>, i: nat, lo: real)
    requires i < |checks| && ClockAscends(w, checks) && Separable(w, checks)
    ensures |RunChecks(checks).1| == |checks|
    ensures |AllowedIn(w, checks, RunChecks(checks).1, i, lo, lo + 3600.0)| <= Allowance(w)
  {
    var events := RunIsWatched(w, checks);
    var verdicts := RunChecks(checks).1;
    var xs := Sights(w, checks, verdicts);
    SightsAscend(w, checks, verdicts);
    EntriesPerHour(Allowance(w), xs, events, KeyOf(w, checks[i]), lo);
    SeparableKeysTell(w, checks);
    AllowedAreEntries(w, checks, verdicts, i, lo, lo + 3600.0);
    SubsetCount(AllowedIn(w, checks, verdicts, i, lo, lo + 3600.0),
      EntriesIn(KeyOf(w, checks[i]), xs, lo, lo + 3600.0));
  }

  /** Every hour lets at most 20 checks of an address through, and at most 5 of an email. */
  lemma AllowedPerHour(checks: seq<Check>, i: nat, lo: real)
    requires i < |checks|
    ensures |RunChecks(checks).1| == |checks|
    ensures ClockAscends(ByIp, checks) ==> |AllowedIn(ByIp, checks, RunChecks(checks).1, i, lo, lo + 3600.0)| <= 20
    ensures ClockAscends(ByEmail, checks) ==>
      |AllowedIn(ByEmail, checks, RunChecks(checks).1, i, lo, lo + 3600.0)| <= 5
  {
    OneVerdictEach(checks);
    if ClockAscends(ByIp, checks) {
      AllowedWithinAllowance(ByIp, checks, i, lo);
    }
    if ClockAscends(ByEmail, checks) {
      AllowedWithinAllowance(ByEmail, checks, i, lo);
    }
  }
}
