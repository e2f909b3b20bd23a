/** The sliding-window limiter: one deque of accepted times per key, pruned lazily from the front. */
module SlidingWindow {

  /** What one hit reports.  EmptyWindow is the IndexError of reading the front of an empty deque. */
  datatype Verdict = Accepted | Limited(retryAfter: real) | EmptyWindow

  type Events = map<string, seq<real>>

  /** How many entries at the front of the deque have expired; pruning stops at the first that has not. */
  function ExpiredFrom(dq: seq<real>, start: nat, window: int, now: real): (n: nat)
    requires start <= |dq|
    ensures start <= n <= |dq|
    ensures n < |dq| ==> now - dq[n] <= window as real
    ensures forall i | start <= i < n :: now - dq[i] > window as real
    decreases |dq| - start
  {
    if start < |dq| && now - dq[start] > window as real then ExpiredFrom(dq, start + 1, window, now) else start
  }

  /** The deque once every expired entry at its front is gone. */
  function DropExpired(dq: seq<real>, window: int, now: real): seq<real> {
    dq[ExpiredFrom(dq, 0, window, now)..]
  }

  function Max(x: real, y: real): real {
    if x < y then y else x
  }

  /** One hit against the deque of its key. */
  function HitDeque(dq: seq<real>, limit: int, window: int, now: real): (seq<real>, Verdict) {
    var live := DropExpired(dq, window, now);
    if |live| >= limit then
      if live == [] then (live, EmptyWindow)
      else (live, Limited(Max(0.0, live[0] + window as real - now)))
    else
      (live + [now], Accepted)
  }

  /** Reading a missing key of the dictionary yields an empty deque. */
  function DequeOf(events: Events, key: string): seq<real> {
    if key in events then events[key] else []
  }

  function PruneKey(events: Events, window: int, key: string, now: real): Events {
    var live := DropExpired(DequeOf(events, key), window, now);
    if live == [] then events - {key} else events[key := live]
  }

  /** A pruned key is kept exactly while one of its times still counts; other keys are left alone. */
  lemma PruneKeepsLiveKeys(events: Events, window: int, key: string, now: real)
    ensures
      var after := PruneKey(events, window, key, now);
      && (key in after <==>
            key in events && exists i | 0 <= i < |events[key]| :: now - events[key][i] <= window as real)
      && (key in after ==> 0 < |after[key]| <= |events[key]| && now - after[key][0] <= window as real)
      && (key in after ==> after[key] == events[key][|events[key]| - |after[key]|..])
      && (forall k | k != key :: (k in after <==> k in events) && (k in after ==> after[k] == events[k]))
  {
    var dq := DequeOf(events, key);
    var n := ExpiredFrom(dq, 0, window, now);
    if n < |dq| {
      assert DropExpired(dq, window, now)[0] == dq[n];
    }
  }

  function HitKey(events: Events, limit: int, window: int, key: string, now: real): (Events, Verdict) {
    var (dq, verdict) := HitDeque(DequeOf(events, key), limit, window, now);
    (events[key := dq], verdict)
  }

  class SlidingWindowRateLimiter {
    const limit: int
    const window: int
    var events: Events

    constructor (limit: int, window: int)
      ensures this.limit == limit && this.window == window && events == map[]
    {
      this.limit, this.window := limit, window;
      events := map[];
    }

    method Prune(key: string, now: real)
      modifies this
      ensures events == PruneKey(old(events), window, key, now)
    {
      ghost var dq, popped := DequeOf(events, key), 0;
      events := events[key := DequeOf(events, key)];
      while |events[key]| > 0 && now - events[key][0] > window as real
        invariant key in events && events == old(events)[key := events[key]]
        invariant popped <= |dq| && events[key] == dq[popped..]
        invariant ExpiredFrom(dq, popped, window, now) == ExpiredFrom(dq, 0, window, now)
        decreases |events[key]|
      {
        events := events[key := events[key][1..]];
        popped := popped + 1;
      }
      if events[key] == [] {
        events := events - {key};
      }
    }

    method Hit(key: string, now: real) returns (verdict: Verdict)
      modifies this
      ensures (events, verdict) == HitKey(old(events), limit, window, key, now)
    {
      Prune(key, now);
      var dq := DequeOf(events, key);
      events := events[key := dq];
      assert events == old(events)[key := DropExpired(DequeOf(old(events), key), window, now)];
      if |dq| >= limit {
        if dq == [] {
          return EmptyWindow;
        }
        return Limited(Max(0.0, dq[0] + window as real - now));
      }
      events := events[key := dq + [now]];
      assert events == old(events)[key := dq + [now]];
      verdict := Accepted;
    }

    method Reset()
      modifies this
      ensures events == map[]
    {
      events := map[];
    }
  }

  // Histories --------------------------------------------------------------

  /** The calls a limiter receives, in the order in which they take its lock. */
  datatype Action = Hit(key: string, now: real) | Reset

  function Run(limit: int, window: int, actions: seq<Action>): Events {
    if actions == [] then map[]
    else
      var before := Run(limit, window, actions[..|actions| - 1]);
      match actions[|actions| - 1]
      case Reset => map[]
      case Hit(key, now) => HitKey(before, limit, window, key, now).0
  }

  /** One key since the last reset: its deque and every time it was accepted, in lock order. */
  datatype History = History(live: seq<real>, accepted: seq<real>)

  function Advance(h: History, limit: int, window: int, now: real): History {
    var (dq, verdict) := HitDeque(h.live, limit, window, now);
    History(dq, if verdict.Accepted? then h.accepted + [now] else h.accepted)
  }

  function KeyHistory(limit: int, window: int, key: string, actions: seq<Action>): History {
    if actions == [] then History([], [])
    else
      var before := KeyHistory(limit, window, key, actions[..|actions| - 1]);
      match actions[|actions| - 1]
      case Reset => History([], [])
      case Hit(k, now) => if k == key then Advance(before, limit, window, now) else before
  }

  /** Keys never disturb one another: the limiter's deque of a key is that key's own history. */
  lemma {:induction false} KeysAreIndependent(limit: int, window: int, key: string, actions: seq<Action>)
    ensures DequeOf(Run(limit, window, actions), key) == KeyHistory(limit, window, key, actions).live
  {
    if actions != [] {
      KeysAreIndependent(limit, window, key, actions[..|actions| - 1]);
    }
  }

  // Counting accepted hits in a closed interval ------------------------------

  function CountIn(times: seq<real>, lo: real, hi: real): nat {
    if times == [] then 0
    else
      CountIn(times[..|times| - 1], lo, hi) + if lo <= times[|times| - 1] <= hi then 1 else 0
  }

  lemma {:induction false} CountNone(times: seq<real>, lo: real, hi: real)
    requires forall i | 0 <= i < |times| :: !(lo <= times[i] <= hi)
    ensures CountIn(times, lo, hi) == 0
  {
    if times != [] {
      CountNone(times[..|times| - 1], lo, hi);
    }
  }

  lemma {:induction false} CountSplit(times: seq<real>, k: nat, lo: real, hi: real)
    requires k <= |times|
    ensures CountIn(times, lo, hi) <= CountIn(times[..k], lo, hi) + (|times| - k)
  {
    if k < |times| {
      CountSplit(times[..|times| - 1], k, lo, hi);
      assert times[..|times| - 1][..k] == times[..k];
    } else {
      assert times[..k] == times;
    }
  }

  /** Entries `limit` places apart, in list order, differ by more than `gap`. */
  ghost predicate Spread(times: seq<real>, limit: nat, gap: real) {
    forall p, q | 0 <= p && p + limit <= q < |times| :: times[q] - times[p] > gap
  }

  /** If entries `limit` places apart never share the interval, it holds at most `limit` of them. */
  lemma {:induction false} SpreadBoundsCount(times: seq<real>, limit: nat, lo: real, hi: real)
    requires Spread(times, limit, hi - lo)
    ensures CountIn(times, lo, hi) <= limit
  {
    var n := |times|;
    if n > limit {
      if lo <= times[n - 1] <= hi {
        CountNone(times[..n - limit], lo, hi) by {
          forall i | 0 <= i < n - limit
            ensures !(lo <= times[i] <= hi)
          {
            if i + limit <= n - 1 {
              assert times[n - 1] - times[i] > hi - lo;
            }
          }
        }
        CountSplit(times, n - limit, lo, hi);
      } else {
        SpreadBoundsCount(times[..n - 1], limit, lo, hi);
      }
    } else {
      CountSplit(times, 0, lo, hi);
    }
  }

  lemma SpreadBoundsWindow(times: seq<real>, limit: nat, length: real, lo: real)
    requires Spread(times, limit, length)
    ensures CountIn(times, lo, lo + length) <= limit
  {
    assert (lo + length) - lo == length;
    SpreadBoundsCount(times, limit, lo, lo + length);
  }

  // The window bound under clock skew ----------------------------------------

  /** In lock order, the times used for a key never fall more than `d` below one already used. */
  ghost predicate SkewAtMost(actions: seq<Action>, key: string, d: real) {
    forall i, j | 0 <= i < j < |actions|
      && actions[i].Hit? && actions[j].Hit? && actions[i].key == key && actions[j].key == key
      :: actions[j].now >= actions[i].now - d
  }

  /** `t` is at least as late as every time used for the key. */
  ghost predicate AtLeastAll(actions: seq<Action>, key: string, t: real) {
    forall i | 0 <= i < |actions| && actions[i].Hit? && actions[i].key == key :: actions[i].now <= t
  }

  /** The deque is the tail of the accepted times; what left it expired before some used time. */
  ghost predicate TailWithin(h: History, window: int, latest: real) {
    && |h.live| <= |h.accepted|
    && h.live == h.accepted[|h.accepted| - |h.live|..]
    && (forall i | 0 <= i < |h.accepted| - |h.live| :: latest - h.accepted[i] > window as real)
  }

  /** Pruning at `now` leaves a tail whose missing part had expired by the later of both times. */
  lemma PruneKeepsTail(h: History, window: int, latest: real, now: real)
    requires TailWithin(h, window, latest)
    ensures TailWithin(History(DropExpired(h.live, window, now), h.accepted), window, Max(latest, now))
  {
    var start := |h.accepted| - |h.live|;
    var n := ExpiredFrom(h.live, 0, window, now);
    assert h.live[n..] == h.accepted[start + n..];
    forall i | start <= i < start + n
      ensures now - h.accepted[i] > window as real
    {
      assert h.accepted[i] == h.live[i - start];
    }
  }

  lemma AcceptKeepsTail(h: History, window: int, latest: real, now: real)
    requires TailWithin(h, window, latest)
    ensures TailWithin(History(h.live + [now], h.accepted + [now]), window, latest)
  {
    var start := |h.accepted| - |h.live|;
    assert (h.accepted + [now])[start..] == h.live + [now];
  }

  lemma AcceptKeepsSpread(h: History, limit: nat, window: int, d: real, latest: real, now: real)
    requires d >= 0.0
    requires TailWithin(h, window, latest) && Spread(h.accepted, limit, window as real - d)
    requires |h.live| < limit && now >= latest - d
    ensures Spread(h.accepted + [now], limit, window as real - d)
  {
    var times := h.accepted + [now];
    forall p, q | 0 <= p && p + limit <= q < |times|
      ensures times[q] - times[p] > window as real - d
    {
      if q < |h.accepted| {
        assert h.accepted[q] - h.accepted[p] > window as real - d;
      } else {
        assert latest - h.accepted[p] > window as real;
      }
    }
  }

  lemma AdvanceKeepsSpread(h: History, limit: nat, window: int, d: real, latest: real, now: real)
    requires limit >= 1 && d >= 0.0
    requires TailWithin(h, window, latest) && Spread(h.accepted, limit, window as real - d)
    requires now >= latest - d
    ensures TailWithin(Advance(h, limit, window, now), window, Max(latest, now))
    ensures Spread(Advance(h, limit, window, now).accepted, limit, window as real - d)
  {
    var pruned := History(DropExpired(h.live, window, now), h.accepted);
    PruneKeepsTail(h, window, latest, now);
    if |pruned.live| < limit {
      AcceptKeepsTail(pruned, window, Max(latest, now), now);
      AcceptKeepsSpread(pruned, limit, window, d, Max(latest, now), now);
    }
  }

  /** Some time that is at least `t` and every time used for the key, and is itself `t` or a used time. */
  lemma {:induction false} LatestUsed(actions: seq<Action>, key: string, t: real) returns (latest: real)
    ensures AtLeastAll(actions, key, latest) && latest >= t
    ensures latest == t || Hit(key, latest) in actions
  {
    latest := t;
    if actions != [] {
      var last := actions[|actions| - 1];
      latest := LatestUsed(actions[..|actions| - 1], key, t);
      if last.Hit? && last.key == key && last.now > latest {
        latest := last.now;
      }
    }
  }

  lemma LatestWithinSkew(actions: seq<Action>, key: string, d: real) returns (latest: real)
    requires d >= 0.0 && SkewAtMost(actions, key, d)
    requires actions != [] && actions[|actions| - 1].Hit? && actions[|actions| - 1].key == key
    ensures AtLeastAll(actions[..|actions| - 1], key, latest)
    ensures latest - d <= actions[|actions| - 1].now <= latest
    ensures forall t | AtLeastAll(actions, key, t) :: latest <= t
  {
    var n := |actions| - 1;
    latest := LatestUsed(actions[..n], key, actions[n].now);
    if latest != actions[n].now {
      var i :| 0 <= i < n && actions[i] == Hit(key, latest);
    }
  }

  lemma {:induction false} HistoryKeepsSpread(limit: nat, window: int, key: string, actions: seq<Action>, d: real,
                                              latest: real)
    requires limit >= 1 && d >= 0.0
    requires SkewAtMost(actions, key, d) && AtLeastAll(actions, key, latest)
    ensures TailWithin(KeyHistory(limit, window, key, actions), window, latest)
    ensures Spread(KeyHistory(limit, window, key, actions).accepted, limit, window as real - d)
  {
    if actions != [] {
      var front := actions[..|actions| - 1];
      var last := actions[|actions| - 1];
      if last.Hit? && last.key == key {
        var earlier := LatestWithinSkew(actions, key, d);
        HistoryKeepsSpread(limit, window, key, front, d, earlier);
        AdvanceKeepsSpread(KeyHistory(limit, window, key, front), limit, window, d, earlier, last.now);
      } else {
        HistoryKeepsSpread(limit, window, key, front, d, latest);
      }
    }
  }

  /**
   * Between resets, every closed interval of length W - d holds at most `limit` accepted hits of a
   * key, when the clock readings used for it slip back by at most d.  With d == 0 this is the plain
   * sliding-window guarantee.
   */
  lemma WindowBound(limit: nat, window: int, key: string, actions: seq<Action>, d: real, lo: real)
    requires limit >= 1
    requires 0.0 <= d <= window as real
    requires SkewAtMost(actions, key, d)
    ensures CountIn(KeyHistory(limit, window, key, actions).accepted, lo, lo + (window as real - d)) <= limit
  {
    var latest := LatestUsed(actions, key, 0.0);
    HistoryKeepsSpread(limit, window, key, actions, d, latest);
    SpreadBoundsWindow(KeyHistory(limit, window, key, actions).accepted, limit, window as real - d, lo);
  }

  lemma AdvanceAppends(h: History, limit: int, window: int, now: real)
    requires h.live == [] || now - h.live[0] <= window as real
    requires |h.live| < limit
    ensures Advance(h, limit, window, now) == History(h.live + [now], h.accepted + [now])
  {
  }

  lemma AdvanceRestarts(h: History, limit: int, window: int, now: real)
    requires limit >= 1 && forall i | 0 <= i < |h.live| :: now - h.live[i] > window as real
    ensures Advance(h, limit, window, now) == History([now], h.accepted + [now])
  {
  }

  // The bound is tight ---------------------------------------------------------

  function Hits(key: string, now: real, n: nat): seq<Action> {
    seq(n, _ => Hit(key, now))
  }

  function Times(now: real, n: nat): seq<real> {
    seq(n, _ => now)
  }

  lemma OneMoreHit(actions: seq<Action>, limit: int, window: int, key: string, now: real, before: History,
                   after: History)
    requires KeyHistory(limit, window, key, actions) == before && Advance(before, limit, window, now) == after
    ensures KeyHistory(limit, window, key, actions + [Hit(key, now)]) == after
  {
    assert (actions + [Hit(key, now)])[..|actions|] == actions;
  }

  /** A hit that finds room after none of the deque has expired. */
  lemma HitAppends(actions: seq<Action>, limit: int, window: int, key: string, now: real, h: History)
    requires KeyHistory(limit, window, key, actions) == h
    requires |h.live| < limit && (h.live == [] || now - h.live[0] <= window as real)
    ensures KeyHistory(limit, window, key, actions + [Hit(key, now)]) == History(h.live + [now], h.accepted + [now])
  {
    AdvanceAppends(h, limit, window, now);
    OneMoreHit(actions, limit, window, key, now, h, History(h.live + [now], h.accepted + [now]));
  }

  lemma {:induction false} FullWindow(limit: int, window: int, key: string, now: real, n: nat)
    requires n <= limit && window >= 0
    ensures KeyHistory(limit, window, key, Hits(key, now, n)) == History(Times(now, n), Times(now, n))
  {
    if n == 0 {
      assert Hits(key, now, 0) == [];
    } else {
      FullWindow(limit, window, key, now, n - 1);
      HitAppends(Hits(key, now, n - 1), limit, window, key, now, History(Times(now, n - 1), Times(now, n - 1)));
      assert Hits(key, now, n) == Hits(key, now, n - 1) + [Hit(key, now)];
      assert Times(now, n) == Times(now, n - 1) + [now];
    }
  }

  /** A full window at 0, a late hit, when all of it has expired, and one that slips back. */
  function Slipping(key: string, limit: nat, late: real, back: real): seq<Action> {
    Hits(key, 0.0, limit) + [Hit(key, late)] + [Hit(key, back)]
  }

  lemma AllExpire(limit: nat, window: int, key: string, late: real)
    requires limit >= 2 && window >= 0 && late > window as real
    ensures KeyHistory(limit, window, key, Hits(key, 0.0, limit) + [Hit(key, late)]) ==
      History([late], Times(0.0, limit) + [late])
  {
    var h := History(Times(0.0, limit), Times(0.0, limit));
    FullWindow(limit, window, key, 0.0, limit);
    AdvanceRestarts(h, limit, window, late);
    OneMoreHit(Hits(key, 0.0, limit), limit, window, key, late, h, History([late], h.accepted + [late]));
  }

  lemma SlippingAccepted(limit: nat, window: int, key: string, late: real, back: real)
    requires limit >= 2 && window >= 0 && late > window as real && back <= late
    ensures KeyHistory(limit, window, key, Slipping(key, limit, late, back)).accepted ==
      Times(0.0, limit) + [late] + [back]
  {
    AllExpire(limit, window, key, late);
    HitAppends(Hits(key, 0.0, limit) + [Hit(key, late)], limit, window, key, back,
      History([late], Times(0.0, limit) + [late]));
  }

  lemma CountAppend(times: seq<real>, t: real, lo: real, hi: real)
    ensures CountIn(times + [t], lo, hi) == CountIn(times, lo, hi) + if lo <= t <= hi then 1 else 0
  {
    assert (times + [t])[..|times|] == times;
  }

  lemma {:induction false} CountEqual(t: real, n: nat, lo: real, hi: real)
    requires lo <= t <= hi
    ensures CountIn(Times(t, n), lo, hi) == n
  {
    if n > 0 {
      CountEqual(t, n - 1, lo, hi);
      CountAppend(Times(t, n - 1), t, lo, hi);
      assert Times(t, n) == Times(t, n - 1) + [t];
    }
  }

  lemma SlippingCount(limit: nat, late: real, back: real)
    requires late > back > 0.0
    ensures CountIn(Times(0.0, limit) + [late] + [back], 0.0, back) == limit + 1
  {
    CountEqual(0.0, limit, 0.0, back);
    CountAppend(Times(0.0, limit), late, 0.0, back);
    CountAppend(Times(0.0, limit) + [late], back, 0.0, back);
  }

  lemma SlippingSkew(limit: nat, key: string, late: real, back: real)
    requires late >= back >= 0.0
    ensures SkewAtMost(Slipping(key, limit, late, back), key, late - back)
  {
  }

  /**
   * The bound is tight: for every limit of two or more and every slip d up to W, every interval longer than W - d
   * holds one hit too many in some history, here the interval from 0 to back, where back == late - d > W - d.
   */
  lemma SkewWeakensWindow(limit: nat, window: int, key: string, late: real, back: real)
    requires limit >= 2 && 0.0 < late - back <= window as real < late
    ensures SkewAtMost(Slipping(key, limit, late, back), key, late - back)
    ensures CountIn(KeyHistory(limit, window, key, Slipping(key, limit, late, back)).accepted, 0.0, back) == limit + 1
  {
    SlippingSkew(limit, key, late, back);
    SlippingAccepted(limit, window, key, late, back);
    SlippingCount(limit, late, back);
  }

  // A limit of one ---------------------------------------------------------------

  /** The deque is the last accepted time, and accepted times lie more than a window apart. */
  ghost predicate LastOnly(h: History, window: int) {
    && h.live == (if h.accepted == [] then [] else [h.accepted[|h.accepted| - 1]])
    && Spread(h.accepted, 1, window as real)
  }

  lemma AdvanceKeepsLast(h: History, window: int, now: real)
    requires window >= 0 && LastOnly(h, window)
    ensures LastOnly(Advance(h, 1, window, now), window)
  {
    if h.live == [] || now - h.live[0] > window as real {
      AdvanceRestarts(h, 1, window, now);
      AppendKeepsSpread(h.accepted, window as real, now);
    }
  }

  lemma AppendKeepsSpread(times: seq<real>, gap: real, now: real)
    requires gap >= 0.0 && Spread(times, 1, gap)
    requires times != [] ==> now - times[|times| - 1] > gap
    ensures Spread(times + [now], 1, gap)
  {
    var all := times + [now];
    forall p, q | 0 <= p && p + 1 <= q < |all|
      ensures all[q] - all[p] > gap
    {
      if q == |times| && p + 1 < |times| {
        assert times[|times| - 1] - times[p] > gap;
      }
    }
  }

  lemma {:induction false} HistoryKeepsLast(window: int, key: string, actions: seq<Action>)
    requires window >= 0
    ensures LastOnly(KeyHistory(1, window, key, actions), window)
  {
    if actions != [] {
      var front := actions[..|actions| - 1];
      var last := actions[|actions| - 1];
      HistoryKeepsLast(window, key, front);
      if last.Hit? && last.key == key {
        AdvanceKeepsLast(KeyHistory(1, window, key, front), window, last.now);
      }
    }
  }

  /** With a limit of one the full window holds whatever the clock does. */
  lemma SingleLimitIgnoresSkew(window: int, key: string, actions: seq<Action>, lo: real)
    requires window >= 0
    ensures CountIn(KeyHistory(1, window, key, actions).accepted, lo, lo + window as real) <= 1
  {
    HistoryKeepsLast(window, key, actions);
    SpreadBoundsWindow(KeyHistory(1, window, key, actions).accepted, 1, window as real, lo);
  }

  // The full-history rule under a steady clock ----------------------------------

  ghost predicate Ascending(times: seq<real>) {
    forall i, j | 0 <= i < j < |times| :: times[i] <= times[j]
  }

  ghost predicate NoneAfter(times: seq<real>, latest: real) {
    forall i | 0 <= i < |times| :: times[i] <= latest
  }

  lemma {:induction false} HistoryAscends(limit: nat, window: int, key: string, actions: seq<Action>, latest: real)
    requires SkewAtMost(actions, key, 0.0) && AtLeastAll(actions, key, latest)
    ensures Ascending(KeyHistory(limit, window, key, actions).accepted)
    ensures NoneAfter(KeyHistory(limit, window, key, actions).accepted, latest)
  {
    if actions != [] {
      var front := actions[..|actions| - 1];
      var last := actions[|actions| - 1];
      if last.Hit? && last.key == key {
        HistoryAscends(limit, window, key, front, last.now);
      } else {
        HistoryAscends(limit, window, key, front, latest);
      }
    }
  }

  lemma {:induction false} CountTail(times: seq<real>, k: nat, lo: real, hi: real)
    requires k <= |times|
    requires forall i | 0 <= i < k :: !(lo <= times[i] <= hi)
    requires forall i | k <= i < |times| :: lo <= times[i] <= hi
    ensures CountIn(times, lo, hi) == |times| - k
  {
    if k < |times| {
      CountTail(times[..|times| - 1], k, lo, hi);
    } else {
      CountNone(times, lo, hi);
    }
  }

  lemma RecentTail(times: seq<real>, k: nat, window: int, now: real)
    requires k <= |times| && Ascending(times) && NoneAfter(times, now)
    requires forall i | 0 <= i < k :: now - times[i] > window as real
    requires k < |times| ==> now - times[k] <= window as real
    ensures CountIn(times, now - window as real, now) == |times| - k
  {
    forall i | k <= i < |times|
      ensures now - window as real <= times[i] <= now
    {
      if i > k {
        assert times[k] <= times[i];
      }
    }
    CountTail(times, k, now - window as real, now);
  }

  lemma LiveAreRecent(h: History, window: int, now: real)
    requires TailWithin(h, window, now)
    requires Ascending(h.accepted) && NoneAfter(h.accepted, now)
    ensures CountIn(h.accepted, now - window as real, now) == |DropExpired(h.live, window, now)|
  {
    PruneKeepsTail(h, window, now, now);
    var n := ExpiredFrom(h.live, 0, window, now);
    var k := |h.accepted| - |h.live| + n;
    if n < |h.live| {
      assert h.accepted[k] == h.live[n];
    }
    RecentTail(h.accepted, k, window, now);
  }

  /**
   * Under a clock that never goes back the limiter is the full-history rule: a hit is accepted
   * exactly when fewer than `limit` accepted hits of its key lie at or after now - W.
   */
  lemma AcceptsByFullHistory(limit: nat, window: int, key: string, actions: seq<Action>, now: real)
    requires limit >= 1
    requires SkewAtMost(actions, key, 0.0) && AtLeastAll(actions, key, now)
    ensures
      var h := KeyHistory(limit, window, key, actions);
      var verdict := HitKey(Run(limit, window, actions), limit, window, key, now).1;
      && !verdict.EmptyWindow?
      && (verdict.Accepted? <==> CountIn(h.accepted, now - window as real, now) < limit)
  {
    KeysAreIndependent(limit, window, key, actions);
    HistoryKeepsSpread(limit, window, key, actions, 0.0, now);
    HistoryAscends(limit, window, key, actions, now);
    LiveAreRecent(KeyHistory(limit, window, key, actions), window, now);
  }

  /** Under such a clock a refusal waits for the oldest accepted hit that is not older than the window. */
  lemma WaitByFullHistory(limit: nat, window: int, key: string, actions: seq<Action>, now: real) returns (k: nat)
    requires limit >= 1
    requires SkewAtMost(actions, key, 0.0) && AtLeastAll(actions, key, now)
    requires HitKey(Run(limit, window, actions), limit, window, key, now).1.Limited?
    ensures
      var accepted := KeyHistory(limit, window, key, actions).accepted;
      && Ascending(accepted) && k < |accepted| && now - accepted[k] <= window as real
      && (forall i | 0 <= i < k :: now - accepted[i] > window as real)
      && HitKey(Run(limit, window, actions), limit, window, key, now).1 ==
        Limited(accepted[k] + window as real - now)
  {
    KeysAreIndependent(limit, window, key, actions);
    HistoryKeepsSpread(limit, window, key, actions, 0.0, now);
    HistoryAscends(limit, window, key, actions, now);
    k := OldestLive(KeyHistory(limit, window, key, actions), limit, window, now);
  }

  lemma OldestLive(h: History, limit: int, window: int, now: real) returns (k: nat)
    requires TailWithin(h, window, now) && HitDeque(h.live, limit, window, now).1.Limited?
    ensures k < |h.accepted| && now - h.accepted[k] <= window as real
    ensures forall i | 0 <= i < k :: now - h.accepted[i] > window as real
    ensures HitDeque(h.live, limit, window, now).1 == Limited(h.accepted[k] + window as real - now)
  {
    PruneKeepsTail(h, window, now, now);
    var n := ExpiredFrom(h.live, 0, window, now);
    k := |h.accepted| - |h.live| + n;
    assert h.accepted[k] == h.live[n];
  }

  /** A limiter without any allowance accepts nothing: every hit ends in the error of reading an empty deque. */
  lemma {:induction false} NoAllowanceAlwaysFails(limit: int, window: int, key: string, actions: seq<Action>, now: real)
    requires limit <= 0
    ensures KeyHistory(limit, window, key, actions) == History([], [])
    ensures HitKey(Run(limit, window, actions), limit, window, key, now).1 == EmptyWindow
  {
    KeysAreIndependent(limit, window, key, actions);
    if actions != [] {
      NoAllowanceAlwaysFails(limit, window, key, actions[..|actions| - 1], now);
    }
  }

  lemma {:induction false} ExpiryIsMonotone(dq: seq<real>, start: nat, window: int, now: real, later: real)
    requires start <= |dq| && now <= later
    ensures ExpiredFrom(dq, start, window, now) <= ExpiredFrom(dq, start, window, later)
    ensures ExpiredFrom(dq, ExpiredFrom(dq, start, window, now), window, later) == ExpiredFrom(dq, start, window, later)
    decreases |dq| - start
  {
    if start < |dq| && now - dq[start] > window as real {
      ExpiryIsMonotone(dq, start + 1, window, now, later);
    }
  }

  lemma {:induction false} ExpiredInTail(dq: seq<real>, k: nat, start: nat, window: int, now: real)
    requires k + start <= |dq|
    ensures ExpiredFrom(dq[k..], start, window, now) + k == ExpiredFrom(dq, k + start, window, now)
    decreases |dq| - start
  {
    if k + start < |dq| && now - dq[k + start] > window as real {
      ExpiredInTail(dq, k, start + 1, window, now);
    }
  }

  lemma DropTwice(dq: seq<real>, window: int, now: real, later: real)
    requires now <= later
    ensures DropExpired(DropExpired(dq, window, now), window, later) == DropExpired(dq, window, later)
  {
    var n := ExpiredFrom(dq, 0, window, now);
    ExpiryIsMonotone(dq, 0, window, now, later);
    ExpiredInTail(dq, n, 0, window, later);
  }

  /** A refused hit leaves no trace: any later hit is judged, and leaves the deque, as if it never came. */
  lemma RejectionLeavesNoTrace(dq: seq<real>, limit: int, window: int, now: real, later: real)
    requires now <= later
    requires !HitDeque(dq, limit, window, now).1.Accepted?
    ensures HitDeque(HitDeque(dq, limit, window, now).0, limit, window, later) == HitDeque(dq, limit, window, later)
  {
    var once := HitDeque(dq, limit, window, now).0;
    assert once == DropExpired(dq, window, now);
    DropTwice(dq, window, now, later);
    assert DropExpired(once, window, later) == DropExpired(dq, window, later);
    SameLiveSameHit(once, dq, limit, window, later);
  }

  lemma SameLiveSameHit(a: seq<real>, b: seq<real>, limit: int, window: int, now: real)
    requires DropExpired(a, window, now) == DropExpired(b, window, now)
    ensures HitDeque(a, limit, window, now) == HitDeque(b, limit, window, now)
  {
  }

  lemma {:induction false} LiveFitsLimit(limit: nat, window: int, key: string, actions: seq<Action>)
    requires limit >= 1
    ensures |KeyHistory(limit, window, key, actions).live| <= limit
  {
    if actions != [] {
      LiveFitsLimit(limit, window, key, actions[..|actions| - 1]);
    }
  }

  /**
   * The reported wait is exact and never clipped at zero: with no other hit of the key in between, a
   * retry is refused up to and including now + retry_after and accepted at every later time.
   */
  lemma RetryAfterIsExact(limit: nat, window: int, key: string, actions: seq<Action>, now: real, later: real)
    requires limit >= 1 && now <= later
    requires HitKey(Run(limit, window, actions), limit, window, key, now).1.Limited?
    ensures
      var (events, verdict) := HitKey(Run(limit, window, actions), limit, window, key, now);
      var retry := HitKey(events, limit, window, key, later).1;
      && verdict.retryAfter == events[key][0] + window as real - now >= 0.0
      && (later <= now + verdict.retryAfter ==> retry.Limited?)
      && (later > now + verdict.retryAfter ==> retry.Accepted?)
  {
    KeysAreIndependent(limit, window, key, actions);
    LiveFitsLimit(limit, window, key, actions);
    var (events, verdict) := HitKey(Run(limit, window, actions), limit, window, key, now);
    assert |events[key]| == limit;
    assert ExpiredFrom(events[key], 0, window, later) > 0 <==> later - events[key][0] > window as real;
  }
}
