/** The password-reset and verification-mail limiters: one limit per email, one per address, one per pair. */
module CompositeLimiter {
  import opened Prelude
  import opened SlidingWindow

  const EMAIL_LIMIT := 5
  const IP_LIMIT := 20
  const PAIR_LIMIT := 5
  const WINDOW_SECONDS := 3600

  datatype Which = ByEmail | ByIp | ByPair
  datatype CheckVerdict = Allowed | Raised(limiter: Which, verdict: Verdict)

  /** A missing or empty address is filed under "unknown". */
  function IpText(ip: Option<string>): string {
    if ip.None? || ip.value == "" then "unknown" else ip.value
  }

  function EmailKey(email: string): string {
    "email:" + Lower(email)
  }

  function IpKey(ip: Option<string>): string {
    "ip:" + IpText(ip)
  }

  function PairKey(ip: Option<string>, email: string): string {
    "pair:" + IpText(ip) + ":" + Lower(email)
  }

  /** The dictionaries of the three limiters. */
  datatype Limiters = Limiters(perEmail: Events, perIp: Events, perPair: Events)

  /** One check; every limiter reads the clock for itself. */
  datatype Check = Check(email: string, ip: Option<string>, emailTime: real, ipTime: real, pairTime: real)

  function CheckStep(s: Limiters, c: Check): (Limiters, CheckVerdict) {
    var (perEmail, v1) := HitKey(s.perEmail, EMAIL_LIMIT, WINDOW_SECONDS, EmailKey(c.email), c.emailTime);
    if !v1.Accepted? then (s.(perEmail := perEmail), Raised(ByEmail, v1))
    else
      var (perIp, v2) := HitKey(s.perIp, IP_LIMIT, WINDOW_SECONDS, IpKey(c.ip), c.ipTime);
      if !v2.Accepted? then (s.(perEmail := perEmail, perIp := perIp), Raised(ByIp, v2))
      else
        var (perPair, v3) := HitKey(s.perPair, PAIR_LIMIT, WINDOW_SECONDS, PairKey(c.ip, c.email), c.pairTime);
        (Limiters(perEmail, perIp, perPair), if v3.Accepted? then Allowed else Raised(ByPair, v3))
  }

  class PasswordResetRateLimiter {
    const perEmail: SlidingWindowRateLimiter
    const perIp: SlidingWindowRateLimiter
    const perPair: SlidingWindowRateLimiter

    ghost predicate Valid() {
      && perEmail != perIp && perEmail != perPair && perIp != perPair
      && perEmail.limit == EMAIL_LIMIT && perIp.limit == IP_LIMIT && perPair.limit == PAIR_LIMIT
      && perEmail.window == perIp.window == perPair.window == WINDOW_SECONDS
    }

    ghost function State(): Limiters
      reads perEmail, perIp, perPair
    {
      Limiters(perEmail.events, perIp.events, perPair.events)
    }

    constructor ()
      ensures Valid() && fresh(perEmail) && fresh(perIp) && fresh(perPair)
      ensures State() == Limiters(map[], map[], map[])
    {
      perEmail := new SlidingWindowRateLimiter(EMAIL_LIMIT, WINDOW_SECONDS);
      perIp := new SlidingWindowRateLimiter(IP_LIMIT, WINDOW_SECONDS);
      perPair := new SlidingWindowRateLimiter(PAIR_LIMIT, WINDOW_SECONDS);
    }

    method Check(c: Check) returns (verdict: CheckVerdict)
      requires Valid()
      modifies perEmail, perIp, perPair
      ensures (State(), verdict) == CheckStep(old(State()), c)
    {
      var v := perEmail.Hit(EmailKey(c.email), c.emailTime);
      if !v.Accepted? {
        return Raised(ByEmail, v);
      }
      v := perIp.Hit(IpKey(c.ip), c.ipTime);
      if !v.Accepted? {
        return Raised(ByIp, v);
      }
      v := perPair.Hit(PairKey(c.ip, c.email), c.pairTime);
      verdict := if v.Accepted? then Allowed else Raised(ByPair, v);
    }

    method Reset()
      requires Valid()
      modifies perEmail, perIp, perPair
      ensures State() == Limiters(map[], map[], map[])
    {
      perEmail.Reset();
      perIp.Reset();
      perPair.Reset();
    }
  }

  // Pair keys ----------------------------------------------------------------

  /** With ':'-free emails the last ':' of a pair key splits it, whatever the address contains. */
  lemma PairKeysAreInjective(ip1: Option<string>, email1: string, ip2: Option<string>, email2: string)
    requires ':' !in email1 && ':' !in email2
    requires PairKey(ip1, email1) == PairKey(ip2, email2)
    ensures IpText(ip1) == IpText(ip2) && Lower(email1) == Lower(email2)
  {
    LowerKeepsColons(email1);
    LowerKeepsColons(email2);
    SplitAtLastColon("pair:" + IpText(ip1), Lower(email1), "pair:" + IpText(ip2), Lower(email2));
    assert ("pair:" + IpText(ip1))[5..] == IpText(ip1);
    assert ("pair:" + IpText(ip2))[5..] == IpText(ip2);
  }

  lemma LongerTailHasColon(a1: string, b1: string, a2: string, b2: string)
    requires a1 + ":" + b1 == a2 + ":" + b2 && |b1| < |b2|
    ensures ':' in b2
  {
    var key := a1 + ":" + b1;
    assert key[|a1|] == ':' && key[|a1|] == b2[|a1| - |a2| - 1];
  }

  lemma SplitAtLastColon(a1: string, b1: string, a2: string, b2: string)
    requires ':' !in b1 && ':' !in b2
    requires a1 + ":" + b1 == a2 + ":" + b2
    ensures a1 == a2 && b1 == b2
  {
    if |b1| < |b2| {
      LongerTailHasColon(a1, b1, a2, b2);
    } else if |b2| < |b1| {
      LongerTailHasColon(a2, b2, a1, b1);
    } else {
      var key := a1 + ":" + b1;
      assert a1 == key[..|a1|] && b1 == key[|a1| + 1..];
      assert a2 == key[..|a2|] && b2 == key[|a2| + 1..];
    }
  }

  lemma LowerKeepsColons(s: string)
    ensures ':' in Lower(s) <==> ':' in s
  {
    if i :| 0 <= i < |s| && s[i] == ':' {
      assert Lower(s)[i] == ':';
    }
  }

  // One check, limiter by limiter -------------------------------------------------

  /** What a check does to the email dictionary: it always hits, and only that limiter's own refusal is no entry. */
  lemma StepEmailEvents(s: Limiters, c: Check)
    ensures
      var (step, verdict) := CheckStep(s, c);
      var (events, v) := HitKey(s.perEmail, EMAIL_LIMIT, WINDOW_SECONDS, EmailKey(c.email), c.emailTime);
      match verdict
      case Allowed => v.Accepted? && step.perEmail == events
      case Raised(ByEmail, w) => w == v && !v.Accepted? && step.perEmail == events
      case Raised(_, _) => v.Accepted? && step.perEmail == events
  {
  }

  /** What a check does to the address dictionary: nothing if the email limiter refuses it. */
  lemma StepIpEvents(s: Limiters, c: Check)
    ensures
      var (step, verdict) := CheckStep(s, c);
      var (events, v) := HitKey(s.perIp, IP_LIMIT, WINDOW_SECONDS, IpKey(c.ip), c.ipTime);
      match verdict
      case Allowed => v.Accepted? && step.perIp == events
      case Raised(ByIp, w) => w == v && !v.Accepted? && step.perIp == events
      case Raised(ByPair, _) => v.Accepted? && step.perIp == events
      case Raised(ByEmail, _) => step.perIp == s.perIp
  {
  }

  /** What a check does to the pair dictionary: nothing unless the other two limiters let it through. */
  lemma StepPairEvents(s: Limiters, c: Check)
    ensures
      var (step, verdict) := CheckStep(s, c);
      var (events, v) := HitKey(s.perPair, PAIR_LIMIT, WINDOW_SECONDS, PairKey(c.ip, c.email), c.pairTime);
      match verdict
      case Allowed => v.Accepted? && step.perPair == events
      case Raised(ByPair, w) => w == v && !v.Accepted? && step.perPair == events
      case Raised(_, _) => step.perPair == s.perPair
  {
  }

  // Sequences of checks ---------------------------------------------------------

  /** A sequence of checks from empty limiters, with the verdict of each. */
  function RunChecks(checks: seq<Check>): (Limiters, seq<CheckVerdict>) {
    if checks == [] then (Limiters(map[], map[], map[]), [])
    else
      var (s, verdicts) := RunChecks(checks[..|checks| - 1]);
      var (t, verdict) := CheckStep(s, checks[|checks| - 1]);
      (t, verdicts + [verdict])
  }

  lemma {:induction false} OneVerdictEach(checks: seq<Check>)
    ensures |RunChecks(checks).1| == |checks|
  {
    if checks != [] {
      OneVerdictEach(checks[..|checks| - 1]);
    }
  }

  /** The verdict on a check is that of one step from what the earlier checks left. */
  lemma {:induction false} VerdictAt(checks: seq<Check>, i: nat)
    requires i < |checks|
    ensures |RunChecks(checks).1| == |checks|
    ensures RunChecks(checks).1[i] == CheckStep(RunChecks(checks[..i]).0, checks[i]).1
  {
    var n := |checks| - 1;
    OneVerdictEach(checks);
    OneVerdictEach(checks[..n]);
    if i < n {
      VerdictAt(checks[..n], i);
      assert checks[..n][..i] == checks[..i];
    }
  }
}
