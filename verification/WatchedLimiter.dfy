/** One sliding window among others: it sees only some of the requests, and its entries are those that it took. */
module WatchedLimiter {
  import opened Prelude
  import opened SlidingWindow

  /** A request as one limiter sees it: whether it was asked at all, whether it took an entry, or how it refused. */
  datatype Sighting = Sighting(key: string, now: real, asked: bool, took: bool, refusal: Verdict)

  predicate SeenBy(limit: nat, before: Events, x: Sighting, after: Events) {
    var (events, own) := HitKey(before, limit, 3600, x.key, x.now);
    if x.asked then after == events && (own.Accepted? <==> x.took) && (!x.took ==> x.refusal == own)
    else after == before && !x.took
  }

  /** A sequence of requests from an empty limiter, with its dictionary in between. */
  ghost predicate Watches(limit: nat, xs: seq<Sighting>, events: seq<Events>) {
    && |events| == |xs| + 1 && events[0] == map[]
    && forall i | 0 <= i < |xs| :: SeenBy(limit, events[i], xs[i], events[i + 1])
  }

  lemma WatchOneMore(limit: nat, xs: seq<Sighting>, events: seq<Events>, x: Sighting, after: Events)
    requires Watches(limit, xs, events) && SeenBy(limit, events[|xs|], x, after)
    ensures Watches(limit, xs + [x], events + [after])
  {
  }

  lemma WatchPrefix(limit: nat, xs: seq<Sighting>, events: seq<Events>, n: nat)
    requires Watches(limit, xs, events) && n <= |xs|
    ensures Watches(limit, xs[..n], events[..n + 1])
  {
  }

  /** The hits that reach the limiter, in order. */
  function Hits(xs: seq<Sighting>): seq<Action> {
    if xs == [] then []
    else
      var x := xs[|xs| - 1];
      if x.asked then Hits(xs[..|xs| - 1]) + [Hit(x.key, x.now)] else Hits(xs[..|xs| - 1])
  }

  /** The times of the entries under a key. */
  function Taken(key: string, xs: seq<Sighting>): seq<real> {
    if xs == [] then []
    else
      var x := xs[|xs| - 1];
      if x.took && x.key == key then Taken(key, xs[..|xs| - 1]) + [x.now] else Taken(key, xs[..|xs| - 1])
  }

  lemma RunAppend(limit: int, hits: seq<Action>, key: string, now: real)
    ensures Run(limit, 3600, hits + [Hit(key, now)]) == HitKey(Run(limit, 3600, hits), limit, 3600, key, now).0
  {
    assert (hits + [Hit(key, now)])[..|hits|] == hits;
  }

  /** The limiter is a sliding window over the hits that reach it. */
  lemma {:induction false} LimiterIsRun(limit: nat, xs: seq<Sighting>, events: seq<Events>)
    requires Watches(limit, xs, events)
    ensures events[|xs|] == Run(limit, 3600, Hits(xs))
  {
    if xs != [] {
      var n := |xs| - 1;
      WatchPrefix(limit, xs, events, n);
      LimiterIsRun(limit, xs[..n], events[..n + 1]);
      assert SeenBy(limit, events[n], xs[n], events[n + 1]);
      RunAppend(limit, Hits(xs[..n]), xs[n].key, xs[n].now);
    }
  }

  lemma HistoryAppend(limit: int, hits: seq<Action>, key: string, hit: string, now: real)
    ensures KeyHistory(limit, 3600, key, hits + [Hit(hit, now)]) ==
      if hit == key then Advance(KeyHistory(limit, 3600, key, hits), limit, 3600, now)
      else KeyHistory(limit, 3600, key, hits)
  {
    assert (hits + [Hit(hit, now)])[..|hits|] == hits;
  }

  /** The accepted times of a key are those of its entries. */
  lemma {:induction false} AcceptedAreTaken(limit: nat, key: string, xs: seq<Sighting>, events: seq<Events>)
    requires Watches(limit, xs, events)
    ensures KeyHistory(limit, 3600, key, Hits(xs)).accepted == Taken(key, xs)
  {
    if xs != [] {
      var n := |xs| - 1;
      WatchPrefix(limit, xs, events, n);
      AcceptedAreTaken(limit, key, xs[..n], events[..n + 1]);
      LimiterIsRun(limit, xs[..n], events[..n + 1]);
      assert SeenBy(limit, events[n], xs[n], events[n + 1]);
      TakenStep(limit, key, events[n], xs[n], events[n + 1], Hits(xs[..n]));
    }
  }

  lemma TakenStep(limit: nat, key: string, before: Events, x: Sighting, after: Events, hits: seq<Action>)
    requires SeenBy(limit, before, x, after) && before == Run(limit, 3600, hits)
    ensures
      var more := if x.asked then hits + [Hit(x.key, x.now)] else hits;
      KeyHistory(limit, 3600, key, more).accepted == KeyHistory(limit, 3600, key, hits).accepted
        + if x.took && x.key == key then [x.now] else []
  {
    HistoryAppend(limit, hits, key, x.key, x.now);
    KeysAreIndependent(limit, 3600, key, hits);
  }

  // Counting entries ------------------------------------------------------------------------------------

  /** The entries of a key in an interval, by place. */
  ghost function EntriesIn(key: string, xs: seq<Sighting>, lo: real, hi: real): set<nat> {
    set j: nat | j < |xs| && xs[j].key == key && xs[j].took && lo <= xs[j].now <= hi
  }

  lemma {:induction false} EntryCount(key: string, xs: seq<Sighting>, lo: real, hi: real)
    ensures |EntriesIn(key, xs, lo, hi)| == CountIn(Taken(key, xs), lo, hi)
  {
    if xs == [] {
      assert EntriesIn(key, xs, lo, hi) == {};
    } else {
      var n := |xs| - 1;
      EntryCount(key, xs[..n], lo, hi);
      EntriesNext(key, xs, lo, hi);
      CountAppend(Taken(key, xs[..n]), xs[n].now, lo, hi);
    }
  }

  lemma EntriesNext(key: string, xs: seq<Sighting>, lo: real, hi: real)
    requires xs != []
    ensures
      var n: nat := |xs| - 1;
      var before := EntriesIn(key, xs[..n], lo, hi);
      && n !in before
      && EntriesIn(key, xs, lo, hi) ==
        if xs[n].key == key && xs[n].took && lo <= xs[n].now <= hi then before + {n} else before
  {
  }

  /** The limiter's clock never goes back. */
  ghost predicate Ascends(xs: seq<Sighting>) {
    forall i, j | 0 <= i < j < |xs| :: xs[i].now <= xs[j].now
  }

  lemma {:induction false} HitsAscend(xs: seq<Sighting>, latest: real)
    requires Ascends(xs) && forall i | 0 <= i < |xs| :: xs[i].now <= latest
    ensures forall i | 0 <= i < |Hits(xs)| :: Hits(xs)[i].Hit? && Hits(xs)[i].now <= latest
    ensures forall i, j | 0 <= i < j < |Hits(xs)| :: Hits(xs)[i].now <= Hits(xs)[j].now
  {
    if xs != [] {
      HitsAscend(xs[..|xs| - 1], xs[|xs| - 1].now);
    }
  }

  // The verdict on one request ------------------------------------------------------------------------------

  /** The entries that still count against request i: of its key, earlier, and at most an hour old. */
  ghost function Recent(xs: seq<Sighting>, i: nat): set<nat>
    requires i < |xs|
  {
    set j: nat | j < i && xs[j].key == xs[i].key && xs[j].took && xs[j].now >= xs[i].now - 3600.0
  }

  lemma RecentCount(xs: seq<Sighting>, i: nat)
    requires i < |xs| && Ascends(xs)
    ensures |Recent(xs, i)| == CountIn(Taken(xs[i].key, xs[..i]), xs[i].now - 3600.0, xs[i].now)
  {
    EntryCount(xs[i].key, xs[..i], xs[i].now - 3600.0, xs[i].now);
    assert Recent(xs, i) == EntriesIn(xs[i].key, xs[..i], xs[i].now - 3600.0, xs[i].now);
  }

  /** What the limiter holds before a request, under a clock that never goes back. */
  ghost predicate SeenBefore(limit: nat, before: Events, hits: seq<Action>, key: string, taken: seq<real>, now: real) {
    && before == Run(limit, 3600, hits) && KeyHistory(limit, 3600, key, hits).accepted == taken
    && SkewAtMost(hits, key, 0.0) && AtLeastAll(hits, key, now)
  }

  lemma PrefixIsSeen(limit: nat, xs: seq<Sighting>, events: seq<Events>, i: nat)
    requires Watches(limit, xs, events) && i < |xs| && Ascends(xs)
    ensures SeenBefore(limit, events[i], Hits(xs[..i]), xs[i].key, Taken(xs[i].key, xs[..i]), xs[i].now)
  {
    WatchPrefix(limit, xs, events, i);
    LimiterIsRun(limit, xs[..i], events[..i + 1]);
    AcceptedAreTaken(limit, xs[i].key, xs[..i], events[..i + 1]);
    HitsAscend(xs[..i], xs[i].now);
  }

  lemma StepTakesIff(limit: nat, before: Events, x: Sighting, after: Events, hits: seq<Action>, taken: seq<real>)
    requires limit >= 1 && SeenBy(limit, before, x, after) && SeenBefore(limit, before, hits, x.key, taken, x.now)
    ensures x.took <==> x.asked && CountIn(taken, x.now - 3600.0, x.now) < limit
  {
    AcceptsByFullHistory(limit, 3600, x.key, hits, x.now);
  }

  /** A request takes an entry exactly if it is asked for and the limit is not used up by recent entries. */
  lemma TakesIff(limit: nat, xs: seq<Sighting>, events: seq<Events>, i: nat)
    requires limit >= 1 && Watches(limit, xs, events) && i < |xs| && Ascends(xs)
    ensures xs[i].took <==> xs[i].asked && |Recent(xs, i)| < limit
  {
    PrefixIsSeen(limit, xs, events, i);
    StepTakesIff(limit, events[i], xs[i], events[i + 1], Hits(xs[..i]), Taken(xs[i].key, xs[..i]));
    RecentCount(xs, i);
  }

  // How long a refusal waits ----------------------------------------------------------------------------------

  /** Every taken time is the time of an entry. */
  lemma {:induction false} TakenBy(key: string, xs: seq<Sighting>, k: nat) returns (j: nat)
    requires k < |Taken(key, xs)|
    ensures j < |xs| && xs[j].key == key && xs[j].took && xs[j].now == Taken(key, xs)[k]
  {
    var n := |xs| - 1;
    if k < |Taken(key, xs[..n])| {
      j := TakenBy(key, xs[..n], k);
    } else {
      j := n;
    }
  }

  /** And the other way round. */
  lemma {:induction false} PlaceOfTaken(key: string, xs: seq<Sighting>, j: nat) returns (k: nat)
    requires j < |xs| && xs[j].key == key && xs[j].took
    ensures k < |Taken(key, xs)| && Taken(key, xs)[k] == xs[j].now
  {
    var n := |xs| - 1;
    if j < n {
      k := PlaceOfTaken(key, xs[..n], j);
    } else {
      k := |Taken(key, xs[..n])|;
    }
  }

  /** The first time within the hour, in an ascending list. */
  ghost predicate IsFirstWithin(taken: seq<real>, k: nat, now: real) {
    && k < |taken| && now - taken[k] <= 3600.0 && Ascending(taken)
    && forall m | 0 <= m < k :: now - taken[m] > 3600.0
  }

  ghost predicate IsEarliest(xs: seq<Sighting>, i: nat, first: nat)
    requires i < |xs|
  {
    first in Recent(xs, i) && forall j | j in Recent(xs, i) :: xs[first].now <= xs[j].now
  }

  lemma StepWait(limit: nat, before: Events, x: Sighting, after: Events, hits: seq<Action>, taken: seq<real>)
    returns (k: nat)
    requires limit >= 1 && SeenBy(limit, before, x, after) && SeenBefore(limit, before, hits, x.key, taken, x.now)
    requires x.asked && !x.took
    ensures IsFirstWithin(taken, k, x.now) && x.refusal == Limited(taken[k] + 3600.0 - x.now)
  {
    AcceptsByFullHistory(limit, 3600, x.key, hits, x.now);
    k := WaitByFullHistory(limit, 3600, x.key, hits, x.now);
  }

  lemma FirstIsEarliest(xs: seq<Sighting>, i: nat, k: nat) returns (first: nat)
    requires i < |xs| && IsFirstWithin(Taken(xs[i].key, xs[..i]), k, xs[i].now)
    ensures IsEarliest(xs, i, first) && xs[first].now == Taken(xs[i].key, xs[..i])[k]
  {
    first := TakenBy(xs[i].key, xs[..i], k);
    forall j | j in Recent(xs, i)
      ensures xs[first].now <= xs[j].now
    {
      var m := PlaceOfTaken(xs[i].key, xs[..i], j);
    }
  }

  /** A refusal waits until the earliest recent entry is an hour old. */
  lemma RefusalWaits(limit: nat, xs: seq<Sighting>, events: seq<Events>, i: nat) returns (first: nat)
    requires limit >= 1 && Watches(limit, xs, events) && i < |xs| && Ascends(xs) && xs[i].asked && !xs[i].took
    ensures IsEarliest(xs, i, first) && xs[i].refusal == Limited(xs[first].now + 3600.0 - xs[i].now)
  {
    PrefixIsSeen(limit, xs, events, i);
    var k := StepWait(limit, events[i], xs[i], events[i + 1], Hits(xs[..i]), Taken(xs[i].key, xs[..i]));
    first := FirstIsEarliest(xs, i, k);
  }

  // Any hour ----------------------------------------------------------------------------------------------------

  lemma HourBound(limit: nat, key: string, hits: seq<Action>, lo: real)
    requires limit >= 1
    requires forall i, j | 0 <= i < j < |hits| && hits[i].Hit? && hits[j].Hit? :: hits[i].now <= hits[j].now
    ensures CountIn(KeyHistory(limit, 3600, key, hits).accepted, lo, lo + 3600.0) <= limit
  {
    WindowBound(limit, 3600, key, hits, 0.0, lo);
  }

  /** Every hour holds at most as many entries of a key as the limit says. */
  lemma EntriesPerHour(limit: nat, xs: seq<Sighting>, events: seq<Events>, key: string, lo: real)
    requires limit >= 1 && Watches(limit, xs, events) && Ascends(xs)
    ensures |EntriesIn(key, xs, lo, lo + 3600.0)| <= limit
  {
    AcceptedAreTaken(limit, key, xs, events);
    HitsAscend(xs, if xs == [] then 0.0 else xs[|xs| - 1].now);
    HourBound(limit, key, Hits(xs), lo);
    EntryCount(key, xs, lo, lo + 3600.0);
  }
}
