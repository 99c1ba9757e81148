/**
 The driver health monitor (core/drivers/driver_health_monitor.py). A driver's window, status and
 alerts depend on its own events only, so the claims are made for one driver's observations, and the
 monitor object is proved to keep every driver that way. An observation is a recorded event together
 with the age that the monitor computes for it from a second clock reading.
 */
module HealthMonitoring {
  import opened Common
  import opened Sorting

  const STALE_THRESHOLD_SECONDS := 300.0

  datatype Status = Healthy | Degraded | Unhealthy | Unknown

  datatype Event = Event(success: bool, latency: real, tokens: int, error: string, timestamp: real)

  datatype Config = Config(
    maxHistory: nat, degradedErrorRate: real, unhealthyErrorRate: real, degradedLatency: real, unhealthyLatency: real)

  /** A status change that raised an alert. */
  datatype Change = Change(previous: Status, current: Status)

  // ---------------------------------------------------------------------------------------------
  // Classification
  // ---------------------------------------------------------------------------------------------

  function Failures(es: seq<Event>): (n: nat)
    ensures n <= |es|
  {
    if es == [] then 0 else Failures(es[..|es| - 1]) + if es[|es| - 1].success then 0 else 1
  }

  /** The latencies that count: only the positive ones. */
  function Latencies(es: seq<Event>): seq<real> {
    if es == [] then []
    else Latencies(es[..|es| - 1]) + if es[|es| - 1].latency > 0.0 then [es[|es| - 1].latency] else []
  }

  function Sum(xs: seq<real>): real {
    if xs == [] then 0.0 else Sum(xs[..|xs| - 1]) + xs[|xs| - 1]
  }

  function Ratio(a: real, n: nat): real { if n == 0 then 0.0 else a / n as real }

  function ErrorRate(es: seq<Event>): real { Ratio(Failures(es) as real, |es|) }

  function AverageLatency(es: seq<Event>): real { Ratio(Sum(Latencies(es)), |Latencies(es)|) }

  function Classify(config: Config, errorRate: real, averageLatency: real, age: real): Status {
    if age > STALE_THRESHOLD_SECONDS then Unknown
    else if errorRate >= config.unhealthyErrorRate then Unhealthy
    else if averageLatency >= config.unhealthyLatency then Unhealthy
    else if errorRate >= config.degradedErrorRate then Degraded
    else if averageLatency >= config.degradedLatency then Degraded
    else Healthy
  }

  function StatusOf(config: Config, window: seq<Event>, age: real): Status {
    Classify(config, ErrorRate(window), AverageLatency(window), age)
  }

  // ---------------------------------------------------------------------------------------------
  // One driver
  // ---------------------------------------------------------------------------------------------

  /** A driver's window, its stored status (unknown when there is none), and its alerts since it was last cleared. */
  datatype Driver = Driver(window: seq<Event>, status: Status, changes: seq<Change>)

  const UNTRACKED := Driver([], Unknown, [])

  /** Appending to a queue of bounded length. */
  function Push(window: seq<Event>, e: Event, maxHistory: nat): seq<Event> { LastN(window + [e], maxHistory) }

  function Observed(config: Config, d: Driver, e: Event, age: real): Driver {
    var window := Push(d.window, e, config.maxHistory);
    if window == [] then d.(window := window) else Noticed(d.(window := window), StatusOf(config, window, age))
  }

  /** A status just computed is stored, with an alert when it changes a known one. */
  function Noticed(d: Driver, status: Status): Driver {
    d.(status := status,
       changes := if status != d.status && d.status != Unknown then d.changes + [Change(d.status, status)]
         else d.changes)
  }

  datatype Observation = Observation(event: Event, age: real)

  /** A driver after its observations since the last clear. */
  ghost function After(config: Config, obs: seq<Observation>): Driver {
    if obs == [] then UNTRACKED
    else Observed(config, After(config, obs[..|obs| - 1]), obs[|obs| - 1].event, obs[|obs| - 1].age)
  }

  ghost function EventsOf(obs: seq<Observation>): seq<Event> {
    seq(|obs|, i requires 0 <= i < |obs| => obs[i].event)
  }

  /** The window is the last `maxHistory` events, and the stored status is the classification recomputed over them. */
  lemma {:induction false} StatusIsRecomputed(config: Config, obs: seq<Observation>)
    ensures After(config, obs).window == LastN(EventsOf(obs), config.maxHistory)
    ensures obs != [] && config.maxHistory >= 1 ==>
      After(config, obs).status == StatusOf(config, LastN(EventsOf(obs), config.maxHistory), obs[|obs| - 1].age)
  {
    if obs != [] {
      var earlier := obs[..|obs| - 1];
      StatusIsRecomputed(config, earlier);
      PushIsLastN(EventsOf(earlier), obs[|obs| - 1].event, config.maxHistory);
      assert EventsOf(obs) == EventsOf(earlier) + [obs[|obs| - 1].event];
    }
  }

  lemma {:induction false} PushIsLastN(es: seq<Event>, e: Event, n: nat)
    ensures Push(LastN(es, n), e, n) == LastN(es + [e], n)
  {
  }

  // ---------------------------------------------------------------------------------------------
  // Alerts
  // ---------------------------------------------------------------------------------------------

  /** Each alert starts where the one before it ended, from one status to another. */
  ghost predicate Chain(start: Status, changes: seq<Change>, end: Status) {
    if changes == [] then start == end
    else
      var last := changes[|changes| - 1];
      last.current == end && last.previous != end && Chain(start, changes[..|changes| - 1], last.previous)
  }

  predicate IsStale(o: Observation) { o.age > STALE_THRESHOLD_SECONDS }

  /** After a stale observation there are only stale ones. */
  ghost predicate StaysStale(obs: seq<Observation>) {
    forall i :: 0 <= i < |obs| - 1 && IsStale(obs[i]) ==> IsStale(obs[i + 1])
  }

  lemma {:induction false} StaysStaleSplits(obs: seq<Observation>)
    requires |obs| > 1
    ensures var n := |obs| - 1; StaysStale(obs) <==> StaysStale(obs[..n]) && (IsStale(obs[n - 1]) ==> IsStale(obs[n]))
  {
    var earlier := obs[..|obs| - 1];
    assert forall i :: 0 <= i < |earlier| ==> earlier[i] == obs[i];
    if StaysStale(obs) {
      forall i | 0 <= i < |earlier| - 1 && IsStale(earlier[i]) ensures IsStale(earlier[i + 1]) {
        assert IsStale(obs[i]);
      }
    }
  }

  /** The latest observation decides whether the status is unknown. */
  lemma {:induction false} UnknownIffStale(config: Config, obs: seq<Observation>)
    requires config.maxHistory >= 1 && obs != []
    ensures After(config, obs).status == Unknown <==> IsStale(obs[|obs| - 1])
  {
    var window := LastN(EventsOf(obs), config.maxHistory);
    StatusIsRecomputed(config, obs);
    ClassifiesUnknown(config, ErrorRate(window), AverageLatency(window), obs[|obs| - 1].age);
  }

  lemma {:induction false} AfterNotices(config: Config, obs: seq<Observation>)
    requires config.maxHistory >= 1 && obs != []
    ensures var d, after := After(config, obs[..|obs| - 1]), After(config, obs);
      after.status == Noticed(d, after.status).status && after.changes == Noticed(d, after.status).changes
  {
    var d, o := After(config, obs[..|obs| - 1]), obs[|obs| - 1];
    var window := Push(d.window, o.event, config.maxHistory);
    assert After(config, obs) == Noticed(d.(window := window), StatusOf(config, window, o.age));
  }

  /** A driver without alerts whose first status is known still has that status. */
  ghost predicate QuietIsUnchanged(start: Status, d: Driver) {
    d.changes == [] && start != Unknown ==> d.status == start
  }

  lemma {:induction false} NoticingQuietly(start: Status, d: Driver, status: Status)
    requires QuietIsUnchanged(start, d)
    ensures QuietIsUnchanged(start, Noticed(d, status))
  {
  }

  /**
   One status check keeps a chain a chain, and a broken one broken, unless a known status follows an
   unknown one, which breaks it.
   */
  lemma {:induction false} NoticingChains(start: Status, d: Driver, status: Status)
    requires QuietIsUnchanged(start, d) && Linked(d.changes, d.status)
    ensures var after := Noticed(d, status);
      Chain(start, after.changes, after.status)
      <==> Chain(start, d.changes, d.status) && (d.status == Unknown ==> status == Unknown)
  {
    if status != d.status && d.status != Unknown {
      assert (d.changes + [Change(d.status, status)])[..|d.changes|] == d.changes;
    }
  }

  lemma {:induction false} AlertsStayQuiet(config: Config, obs: seq<Observation>)
    requires config.maxHistory >= 1 && obs != []
    ensures QuietIsUnchanged(After(config, obs[..1]).status, After(config, obs))
  {
    var earlier := obs[..|obs| - 1];
    if |obs| == 1 {
      assert obs[..1] == obs;
    } else {
      AlertsStayQuiet(config, earlier);
      assert earlier[..1] == obs[..1];
      AfterNotices(config, obs);
      NoticingQuietly(After(config, obs[..1]).status, After(config, earlier), After(config, obs).status);
    }
  }

  /** Without room for an event, no status is ever computed. */
  lemma {:induction false} NoHistoryNoStatus(config: Config, obs: seq<Observation>)
    requires config.maxHistory == 0
    ensures After(config, obs).status == Unknown && After(config, obs).changes == []
  {
    if obs != [] {
      NoHistoryNoStatus(config, obs[..|obs| - 1]);
    }
  }

  /**
   A driver's alerts since its last clear lead step by step from its first status to its stored status
   if and only if no fresh observation comes straight after a stale one, or no history is kept at all.
   */
  lemma {:induction false} AlertsFormChainIff(config: Config, obs: seq<Observation>)
    requires obs != []
    ensures Chain(After(config, obs[..1]).status, After(config, obs).changes, After(config, obs).status)
            <==> config.maxHistory == 0 || StaysStale(obs)
  {
    var earlier, start := obs[..|obs| - 1], After(config, obs[..1]).status;
    if config.maxHistory == 0 {
      NoHistoryNoStatus(config, obs);
      NoHistoryNoStatus(config, obs[..1]);
    } else if |obs| == 1 {
      AfterNotices(config, obs);
      assert obs[..1] == obs && earlier == [];
    } else {
      AlertsFormChainIff(config, earlier);
      assert earlier[..1] == obs[..1];
      AfterNotices(config, obs);
      AlertsStayQuiet(config, earlier);
      AlertsAreLinked(config, earlier);
      NoticingChains(start, After(config, earlier), After(config, obs).status);
      StaysStaleSplits(obs);
      UnknownIffStale(config, earlier);
      UnknownIffStale(config, obs);
    }
  }

  /**
   A fresh observation after a stale one: the status comes back without an alert, and the alerts do
   not lead to it.
   */
  lemma {:induction false} FreshAfterStaleBreaksChain(config: Config, stale: Observation, recent: Observation)
    requires config.maxHistory >= 1 && IsStale(stale) && !IsStale(recent)
    ensures var d := After(config, [stale, recent]); d.changes == [] && d.status != Unknown
    ensures var obs := [stale, recent]; !Chain(After(config, obs[..1]).status, After(config, obs).changes,
      After(config, obs).status)
  {
    var obs := [stale, recent];
    assert obs[..1] == [stale] && [stale][..0] == [] && obs[..|obs| - 1] == [stale];
    AfterNotices(config, [stale]);
    AfterNotices(config, obs);
    UnknownIffStale(config, [stale]);
    UnknownIffStale(config, obs);
  }

  lemma {:induction false} ClassifiesUnknown(config: Config, errorRate: real, averageLatency: real, age: real)
    ensures Classify(config, errorRate, averageLatency, age) == Unknown <==> age > STALE_THRESHOLD_SECONDS
  {
  }

  /** Stale observations break the chain only at an unknown status, which no alert leaves. */
  ghost predicate Linked(changes: seq<Change>, end: Status) {
    && (forall i :: 0 <= i < |changes| ==> changes[i].previous != changes[i].current && changes[i].previous != Unknown)
    && (forall i :: 0 <= i < |changes| - 1 ==>
          changes[i].current == changes[i + 1].previous || changes[i].current == Unknown)
    && (changes != [] ==> changes[|changes| - 1].current == end || changes[|changes| - 1].current == Unknown)
  }

  lemma {:induction false} AlertsAreLinked(config: Config, obs: seq<Observation>)
    ensures Linked(After(config, obs).changes, After(config, obs).status)
  {
    if obs != [] {
      var d, o := After(config, obs[..|obs| - 1]), obs[|obs| - 1];
      AlertsAreLinked(config, obs[..|obs| - 1]);
      var window := Push(d.window, o.event, config.maxHistory);
      if window != [] {
        LinkGrows(d.changes, d.status, StatusOf(config, window, o.age));
      }
    }
  }

  lemma {:induction false} LinkGrows(changes: seq<Change>, from: Status, to: Status)
    requires Linked(changes, from)
    ensures Linked(if to != from && from != Unknown then changes + [Change(from, to)] else changes, to)
  {
  }

  // ---------------------------------------------------------------------------------------------
  // Recovery
  // ---------------------------------------------------------------------------------------------

  ghost predicate FastSuccesses(config: Config, es: seq<Event>) {
    forall i :: 0 <= i < |es| ==>
      es[i].success && es[i].latency < config.degradedLatency && es[i].latency < config.unhealthyLatency
  }

  ghost predicate ThresholdsArePositive(config: Config) {
    && config.degradedErrorRate > 0.0 && config.unhealthyErrorRate > 0.0
    && config.degradedLatency > 0.0 && config.unhealthyLatency > 0.0
  }

  lemma {:induction false} FastWindow(config: Config, es: seq<Event>)
    requires FastSuccesses(config, es)
    ensures Failures(es) == 0
    ensures forall i :: 0 <= i < |Latencies(es)| ==>
      && 0.0 < Latencies(es)[i]
      && Latencies(es)[i] < config.degradedLatency && Latencies(es)[i] < config.unhealthyLatency
  {
    if es != [] {
      FastWindow(config, es[..|es| - 1]);
    }
  }

  lemma {:induction false} SumIsBelow(xs: seq<real>, bound: real)
    requires forall i :: 0 <= i < |xs| ==> 0.0 < xs[i] < bound
    ensures xs != [] ==> Sum(xs) < bound * |xs| as real
    ensures Sum(xs) >= 0.0
  {
    if xs != [] {
      var n := |xs| - 1;
      SumIsBelow(xs[..n], bound);
      if n == 0 {
        assert Sum(xs[..0]) == 0.0;
      }
      assert bound * |xs| as real == bound * n as real + bound;
    }
  }

  lemma {:induction false} RatioIsBelow(a: real, n: nat, bound: real)
    requires n > 0 && a < bound * n as real
    ensures Ratio(a, n) < bound
  {
    var d := bound - a / n as real;
    assert d * n as real == bound * n as real - a;
    PositiveFactor(d, n as real);
  }

  lemma {:induction false} PositiveFactor(x: real, n: real)
    requires n > 0.0 && x * n > 0.0
    ensures x > 0.0
  {
  }

  lemma {:induction false} AverageIsBelow(es: seq<Event>, bound: real)
    requires forall i :: 0 <= i < |Latencies(es)| ==> 0.0 < Latencies(es)[i] < bound
    ensures AverageLatency(es) < bound || (Latencies(es) == [] && AverageLatency(es) == 0.0)
  {
    var xs := Latencies(es);
    if xs != [] {
      SumIsBelow(xs, bound);
      RatioIsBelow(Sum(xs), |xs|, bound);
    }
  }

  /**
   From any past, `maxHistory` successes in a row, each faster than both latency limits, leave the
   driver healthy if and only if all four limits are positive.
   */
  lemma {:induction false} SuccessesRestoreHealth(config: Config, obs: seq<Observation>)
    requires config.maxHistory >= 1 && |obs| >= config.maxHistory
    requires FastSuccesses(config, EventsOf(obs)[|obs| - config.maxHistory..])
    requires obs[|obs| - 1].age <= STALE_THRESHOLD_SECONDS
    ensures After(config, obs).status == Healthy <==> ThresholdsArePositive(config)
  {
    var window := EventsOf(obs)[|obs| - config.maxHistory..];
    StatusIsRecomputed(config, obs);
    assert LastN(EventsOf(obs), config.maxHistory) == window;
    FastWindowStatus(config, window, obs[|obs| - 1].age);
  }

  lemma {:induction false} FastWindowStatus(config: Config, window: seq<Event>, age: real)
    requires window != [] && FastSuccesses(config, window) && age <= STALE_THRESHOLD_SECONDS
    ensures StatusOf(config, window, age) == Healthy <==> ThresholdsArePositive(config)
  {
    FastWindow(config, window);
    AverageIsBelow(window, config.degradedLatency);
    AverageIsBelow(window, config.unhealthyLatency);
    if Latencies(window) != [] {
      assert 0.0 < Latencies(window)[0];
    }
    ClassifyWithoutErrors(config, AverageLatency(window), age);
    NoErrors(window);
  }

  lemma {:induction false} NoErrors(window: seq<Event>)
    requires window != [] && Failures(window) == 0
    ensures ErrorRate(window) == 0.0
  {
  }

  lemma {:induction false} ClassifyWithoutErrors(config: Config, average: real, age: real)
    requires age <= STALE_THRESHOLD_SECONDS
    ensures Classify(config, 0.0, average, age) == Healthy
            <==> && config.degradedErrorRate > 0.0 && config.unhealthyErrorRate > 0.0
                 && average < config.degradedLatency && average < config.unhealthyLatency
  {
  }

  // ---------------------------------------------------------------------------------------------
  // Severity
  // ---------------------------------------------------------------------------------------------

  /** The sum of the latencies that were measured, which are the positive ones. */
  ghost function MeasuredTotal(es: seq<Event>): real {
    if es == [] then 0.0
    else
      var last := es[|es| - 1].latency;
      MeasuredTotal(es[..|es| - 1]) + if last > 0.0 then last else 0.0
  }

  /** The failing share of the events reaches a limit. */
  ghost predicate FailuresReach(es: seq<Event>, limit: real) {
    |Positions(es, (e: Event) => !e.success)| as real >= limit * |es| as real
  }

  /** The mean of the measured latencies reaches a limit; without any measured it counts as zero. */
  ghost predicate LatencyReaches(es: seq<Event>, limit: real) {
    var measured := |Positions(es, (e: Event) => e.latency > 0.0)|;
    if measured == 0 then 0.0 >= limit else MeasuredTotal(es) >= limit * measured as real
  }

  lemma {:induction false} FailuresAreCounted(es: seq<Event>)
    ensures Failures(es) == |Positions(es, (e: Event) => !e.success)|
  {
    if es != [] {
      FailuresAreCounted(es[..|es| - 1]);
      PositionsGrow(es, (e: Event) => !e.success);
    }
  }

  lemma {:induction false} LatenciesAreMeasured(es: seq<Event>)
    ensures |Latencies(es)| == |Positions(es, (e: Event) => e.latency > 0.0)| && Sum(Latencies(es)) == MeasuredTotal(es)
  {
    if es != [] {
      var earlier, last := Latencies(es[..|es| - 1]), es[|es| - 1].latency;
      LatenciesAreMeasured(es[..|es| - 1]);
      PositionsGrow(es, (e: Event) => e.latency > 0.0);
      assert (earlier + [last])[..|earlier|] == earlier && earlier + [] == earlier;
    }
  }

  lemma {:induction false} RatioReaches(a: real, n: nat, limit: real)
    requires n > 0
    ensures Ratio(a, n) >= limit <==> a >= limit * n as real
  {
    var d := a / n as real - limit;
    assert d * n as real == a - limit * n as real;
    if d < 0.0 {
      PositiveFactorOf(-d, n as real);
    }
  }

  lemma {:induction false} PositiveFactorOf(x: real, n: real)
    requires x > 0.0 && n > 0.0
    ensures x * n > 0.0
  {
  }

  lemma {:induction false} ErrorRateReaches(es: seq<Event>, limit: real)
    requires es != []
    ensures ErrorRate(es) >= limit <==> FailuresReach(es, limit)
  {
    var failed := |Positions(es, (e: Event) => !e.success)|;
    FailuresAreCounted(es);
    assert Failures(es) == failed && ErrorRate(es) == Ratio(failed as real, |es|);
    RatioReaches(failed as real, |es|, limit);
  }

  lemma {:induction false} AverageReaches(es: seq<Event>, limit: real)
    ensures AverageLatency(es) >= limit <==> LatencyReaches(es, limit)
  {
    var measured := |Positions(es, (e: Event) => e.latency > 0.0)|;
    LatenciesAreMeasured(es);
    assert AverageLatency(es) == Ratio(MeasuredTotal(es), measured);
    if measured > 0 {
      RatioReaches(MeasuredTotal(es), measured, limit);
    }
  }

  /** How bad a window is, by its events. */
  ghost predicate Severity(config: Config, es: seq<Event>, age: real, status: Status) {
    var unhealthy := FailuresReach(es, config.unhealthyErrorRate) || LatencyReaches(es, config.unhealthyLatency);
    var degraded := FailuresReach(es, config.degradedErrorRate) || LatencyReaches(es, config.degradedLatency);
    && (status == Unknown <==> age > 300.0)
    && (status == Unhealthy <==> age <= 300.0 && unhealthy)
    && (status == Degraded <==> age <= 300.0 && !unhealthy && degraded)
    && (status == Healthy <==> age <= 300.0 && !unhealthy && !degraded)
  }

  lemma {:induction false} ClassifyBySeverity(
    config: Config, errorRate: real, average: real, age: real, es: seq<Event>)
    requires errorRate >= config.unhealthyErrorRate <==> FailuresReach(es, config.unhealthyErrorRate)
    requires errorRate >= config.degradedErrorRate <==> FailuresReach(es, config.degradedErrorRate)
    requires average >= config.unhealthyLatency <==> LatencyReaches(es, config.unhealthyLatency)
    requires average >= config.degradedLatency <==> LatencyReaches(es, config.degradedLatency)
    ensures Severity(config, es, age, Classify(config, errorRate, average, age))
  {
  }

  /** What `get_health` answers for a window that has events. */
  lemma {:induction false} WindowSeverity(config: Config, es: seq<Event>, age: real)
    requires es != []
    ensures Severity(config, es, age, StatusOf(config, es, age))
  {
    ErrorRateReaches(es, config.unhealthyErrorRate);
    ErrorRateReaches(es, config.degradedErrorRate);
    AverageReaches(es, config.unhealthyLatency);
    AverageReaches(es, config.degradedLatency);
    ClassifyBySeverity(config, ErrorRate(es), AverageLatency(es), age, es);
  }

  /**
   After any observations, the stored status is unknown for a stale latest one, and otherwise unhealthy
   exactly when the failing share or the mean measured latency of the last `maxHistory` events reaches
   the unhealthy limit, degraded exactly when neither does but one reaches the degraded limit, and
   healthy in all other cases.
   */
  lemma {:induction false} StoredSeverity(config: Config, obs: seq<Observation>)
    requires config.maxHistory >= 1 && obs != []
    ensures Severity(config, LastN(EventsOf(obs), config.maxHistory), obs[|obs| - 1].age, After(config, obs).status)
  {
    StatusIsRecomputed(config, obs);
    WindowSeverity(config, LastN(EventsOf(obs), config.maxHistory), obs[|obs| - 1].age);
  }

  // ---------------------------------------------------------------------------------------------
  // Percentile
  // ---------------------------------------------------------------------------------------------

  predicate AtMost(x: real, y: real) { x <= y }

  function SortValues(xs: seq<real>): (r: seq<real>)
    ensures |r| == |xs|
  {
    Sort(xs, AtMost)
  }

  lemma {:induction false} SortIsAscending(xs: seq<real>)
    ensures Pairwise(SortValues(xs), AtMost) && multiset(SortValues(xs)) == multiset(xs)
  {
    SortPermutes(xs, AtMost);
    SortOrders(xs, AtMost, AtMost);
  }

  /** The rank, among the sorted values, that a percentile reads. */
  function Rank(size: nat, pct: nat): nat
    requires size > 0
  {
    Min(size * pct / 100, size - 1)
  }

  function Percentile(xs: seq<real>, pct: nat): real {
    if xs == [] then 0.0 else SortValues(xs)[Rank(|xs|, pct)]
  }

  /**
   The percentile is one of the values. Below the hundredth, more than `pct` percent of the values are
   at most it, and at most `pct` percent are below it; from the hundredth on it is the greatest.
   */
  lemma {:induction false} PercentileHasRank(xs: seq<real>, pct: nat)
    requires xs != []
    ensures var v := Percentile(xs, pct);
      && v in xs
      && (pct < 100 ==> |Positions(xs, (x: real) => x <= v)| * 100 > pct * |xs|)
      && (pct < 100 ==> |Positions(xs, (x: real) => x < v)| * 100 <= pct * |xs|)
      && (pct >= 100 ==> forall i :: 0 <= i < |xs| ==> xs[i] <= v)
  {
    var sorted, rank := SortValues(xs), Rank(|xs|, pct);
    var v := sorted[rank];
    SortIsAscending(xs);
    SortPermutes(xs, AtMost);
    RankCounts(sorted, rank);
    SortCounts(xs, AtMost, (x: real) => x <= v);
    SortCounts(xs, AtMost, (x: real) => x < v);
    RankIsShare(|xs|, pct);
    assert v in sorted;
    if pct >= 100 {
      forall i | 0 <= i < |xs| ensures xs[i] <= v {
        assert xs[i] in sorted;
        var k :| 0 <= k < |sorted| && sorted[k] == xs[i];
        assert k < rank ==> AtMost(sorted[k], sorted[rank]);
      }
    }
  }

  lemma {:induction false} RankIsShare(size: nat, pct: nat)
    requires size > 0
    ensures var rank := Rank(size, pct);
      if pct < 100 then rank * 100 <= pct * size < (rank + 1) * 100 else rank == size - 1
  {
    var whole := size * pct / 100;
    assert whole * 100 <= size * pct < (whole + 1) * 100;
    if pct < 100 {
      assert size * pct < size * 100;
    } else {
      assert size * pct >= size * 100;
    }
  }

  lemma {:induction false} RankCounts(sorted: seq<real>, rank: nat)
    requires Pairwise(sorted, AtMost) && rank < |sorted|
    ensures |Positions(sorted, (x: real) => x <= sorted[rank])| >= rank + 1
    ensures |Positions(sorted, (x: real) => x < sorted[rank])| <= rank
  {
    assert forall i :: 0 <= i < rank ==> AtMost(sorted[i], sorted[rank]);
    assert forall i :: rank < i < |sorted| ==> AtMost(sorted[rank], sorted[i]);
    PositionsInclude(sorted, rank + 1, (x: real) => x <= sorted[rank]);
    PositionsInclude(sorted, rank, (x: real) => x < sorted[rank]);
  }

  // ---------------------------------------------------------------------------------------------
  // The monitor
  // ---------------------------------------------------------------------------------------------

  datatype DriverId = DriverId(name: string)

  datatype Alert = Alert(driver: DriverId, change: Change)

  /** The status changes that a list of alerts reports for one driver. */
  function ChangesOf(alerts: seq<Alert>, id: DriverId): seq<Change> {
    if alerts == [] then []
    else
      var last := alerts[|alerts| - 1];
      ChangesOf(alerts[..|alerts| - 1], id) + if last.driver == id then [last.change] else []
  }

  lemma {:induction false} ChangesAppend(alerts: seq<Alert>, start: nat, a: Alert, id: DriverId)
    requires start <= |alerts|
    ensures ChangesOf((alerts + [a])[start..], id)
            == ChangesOf(alerts[start..], id) + if a.driver == id then [a.change] else []
  {
    assert (alerts + [a])[start..] == alerts[start..] + [a];
    assert (alerts[start..] + [a])[..|alerts[start..]|] == alerts[start..];
  }

  method CountSuccesses(window: seq<Event>) returns (successes: nat)
    ensures successes + Failures(window) == |window|
  {
    successes := 0;
    for i := 0 to |window|
      invariant successes + Failures(window[..i]) == i
    {
      assert window[..i + 1][..i] == window[..i];
      if window[i].success {
        successes := successes + 1;
      }
    }
    assert window[..|window|] == window;
  }

  class DriverHealthMonitor {
    const config: Config
    var events: map<DriverId, seq<Event>>
    var lastStatus: map<DriverId, Status>
    var alerts: seq<Alert>
    /** How many alerts there were when a driver was last cleared. */
    ghost var clearedAt: map<DriverId, nat>

    ghost predicate Valid()
      reads this
    {
      forall id :: id in clearedAt ==> clearedAt[id] <= |alerts|
    }

    ghost function Start(id: DriverId): nat
      requires Valid()
      reads this
      ensures Start(id) <= |alerts|
    {
      if id in clearedAt then clearedAt[id] else 0
    }

    ghost function View(id: DriverId): Driver
      requires Valid()
      reads this
    {
      Driver(if id in events then events[id] else [],
             if id in lastStatus then lastStatus[id] else Unknown,
             ChangesOf(alerts[Start(id)..], id))
    }

    constructor (config: Config)
      ensures Valid() && this.config == config
      ensures forall id :: View(id) == UNTRACKED
    {
      this.config := config;
      events, lastStatus, alerts, clearedAt := map[], map[], [], map[];
    }

    /** `record_success` and `record_failure`: the event is queued and the status checked at a second clock reading. */
    method Record(id: DriverId, e: Event, checkedAt: real)
      requires Valid()
      modifies this
      ensures Valid()
      ensures View(id) == Observed(config, old(View(id)), e, checkedAt - e.timestamp)
      ensures forall other :: other != id ==> View(other) == old(View(other))
    {
      ghost var d := View(id);
      var window := Push(if id in events then events[id] else [], e, config.maxHistory);
      LastOfWindow(d.window, e, config.maxHistory);
      if window == [] {
        StoreWindow(id, window);
      } else {
        var age := checkedAt - window[|window| - 1].timestamp;
        var status := StatusOf(config, window, age);
        assert Observed(config, d, e, age) == Noticed(d.(window := window), status);
        StoreAndCheck(id, window, status);
      }
    }

    method StoreAndCheck(id: DriverId, window: seq<Event>, status: Status)
      requires Valid()
      modifies this`events, this`alerts, this`lastStatus
      ensures Valid()
      ensures View(id) == Noticed(old(View(id)).(window := window), status)
      ensures forall other :: other != id ==> View(other) == old(View(other))
    {
      StoreWindow(id, window);
      CheckStatusChange(id, status);
    }

    method StoreWindow(id: DriverId, window: seq<Event>)
      requires Valid()
      modifies this`events
      ensures Valid()
      ensures View(id) == old(View(id)).(window := window)
      ensures forall other :: other != id ==> View(other) == old(View(other))
    {
      events := events[id := window];
    }

    /**
     `_check_status_change`, given the status just computed: an alert for a change from a known
     status, and the status stored.
     */
    method CheckStatusChange(id: DriverId, status: Status)
      requires Valid()
      modifies this`alerts, this`lastStatus
      ensures Valid()
      ensures View(id) == Noticed(old(View(id)), status)
      ensures forall other :: other != id ==> View(other) == old(View(other))
    {
      var before := if id in lastStatus then lastStatus[id] else Unknown;
      if status != before && before != Unknown {
        RaiseAlert(Alert(id, Change(before, status)));
      }
      lastStatus := lastStatus[id := status];
    }

    method RaiseAlert(a: Alert)
      requires Valid()
      modifies this`alerts
      ensures Valid()
      ensures forall id ::
        View(id) == old(View(id)).(changes := old(View(id)).changes + if id == a.driver then [a.change] else [])
    {
      forall id { ChangesAppend(alerts, Start(id), a, id); }
      alerts := alerts + [a];
    }

    /**
     `get_health`: unknown without events, otherwise the classification of the window at this clock
     reading, with the figures it is based on.
     */
    method GetHealth(id: DriverId, now: real)
      returns (status: Status, successes: nat, failures: nat, errorRate: real, averageLatency: real, p95: real,
        age: real)
      requires Valid()
      ensures var window := View(id).window;
        && successes + failures == |window| && failures == Failures(window)
        && errorRate == ErrorRate(window) && averageLatency == AverageLatency(window)
        && p95 == Percentile(Latencies(window), 95)
        && age == (if window == [] then 0.0 else now - window[|window| - 1].timestamp)
        && status == (if window == [] then Unknown else Classify(config, errorRate, averageLatency, age))
    {
      var window := if id in events then events[id] else [];
      if window == [] {
        return Unknown, 0, 0, 0.0, 0.0, 0.0, 0.0;
      }
      successes := CountSuccesses(window);
      failures := |window| - successes;
      errorRate := Ratio(failures as real, |window|);
      averageLatency, p95 := AverageLatency(window), Percentile(Latencies(window), 95);
      age := now - window[|window| - 1].timestamp;
      status := Classify(config, errorRate, averageLatency, age);
    }

    /** Clearing forgets a tracked driver's events and status; its old alerts stay in the list but no longer count. */
    method ClearDriver(id: DriverId) returns (found: bool)
      requires Valid()
      modifies this
      ensures Valid() && alerts == old(alerts)
      ensures found == (id in old(events))
      ensures found ==> View(id) == UNTRACKED
      ensures forall other :: other != id || !found ==> View(other) == old(View(other))
    {
      if id !in events {
        return false;
      }
      events := events - {id};
      lastStatus := lastStatus - {id};
      clearedAt := clearedAt[id := |alerts|];
      return true;
    }

    method Clear()
      modifies this
      ensures Valid() && forall id :: View(id) == UNTRACKED
    {
      events, lastStatus, alerts, clearedAt := map[], map[], [], map[];
    }
  }

  lemma {:induction false} LastOfWindow(window: seq<Event>, e: Event, maxHistory: nat)
    ensures var pushed := Push(window, e, maxHistory); pushed != [] ==> pushed[|pushed| - 1] == e
  {
  }
}
