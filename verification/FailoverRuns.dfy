/**
 What every run of the failover pool keeps: the labelled graph of status changes, the tie between
 a driver's status and its trailing failures, the circuit timer, and the only way back to health.
 Runs are arbitrary operation sequences with arbitrary clock readings.
 */
module FailoverRuns {
  import opened Common
  import opened FailoverSpec

  /** The pool after a run of operations. */
  ghost function Run(p: Pool, ops: seq<Op>): (r: Pool)
    requires WellFormed(p)
    ensures WellFormed(r)
  {
    if ops == [] then p
    else
      var before := Run(p, ops[..|ops| - 1]);
      StepIsWellFormed(before, ops[|ops| - 1]);
      Step(before, ops[|ops| - 1])
  }

  /** Every reachable pool has unique ids and at most `MAX_DRIVERS` drivers. */
  lemma {:induction false} PoolIsBounded(ops: seq<Op>)
    ensures WellFormed(Run([], ops)) && |Run([], ops)| <= MAX_DRIVERS
  {
    if ops != [] {
      PoolIsBounded(ops[..|ops| - 1]);
      StepKeepsCapacity(Run([], ops[..|ops| - 1]), ops[|ops| - 1]);
    }
  }

  /** The pool that operation `i` of a run meets. */
  ghost function At(p: Pool, ops: seq<Op>, i: nat): (r: Pool)
    requires WellFormed(p) && i <= |ops|
    ensures WellFormed(r)
  {
    Run(p, ops[..i])
  }

  lemma {:induction false} AtStep(p: Pool, ops: seq<Op>, i: nat)
    requires WellFormed(p) && i < |ops|
    ensures At(p, ops, i + 1) == Step(At(p, ops, i), ops[i])
  {
    assert ops[..i + 1][..i] == ops[..i];
  }

  /** No operation of the run takes the driver out of the pool. */
  ghost predicate Stays(ops: seq<Op>, id: DriverId) {
    forall i :: 0 <= i < |ops| ==> ops[i] != Unregister(id) && ops[i] != Clear
  }

  // ---------------------------------------------------------------------------------------------
  // The graph of status changes
  // ---------------------------------------------------------------------------------------------

  /** The labelled edges: which operation may move a driver from one status to another. */
  predicate Edge(before: Status, op: Op, after: Status) {
    match (before, after)
    case (Healthy, Degraded) => op.Failure?
    case (Healthy, CircuitOpen) => op.Failure?
    case (Degraded, Healthy) => op.Success?
    case (Degraded, Failing) => op.Failure?
    case (Degraded, CircuitOpen) => op.Failure?
    case (Failing, CircuitOpen) => op.Failure?
    case (CircuitOpen, Recovering) => op.Select?
    case (Recovering, Healthy) => op.Success?
    case (Recovering, CircuitOpen) => op.Failure?
    case _ => false
  }

  lemma {:induction false} LocalMovesAlongEdges(d: Driver, config: Config, id: DriverId, op: Op)
    ensures var after := Local(d, config, id, op);
      d.status != after.status ==> Edge(d.status, op, after.status) && (op.Select? || op.id == id)
  {
  }

  /** In any run, a registered driver's status moves only along the graph, and no other driver's outcome moves it. */
  lemma {:induction false} StatusMovesAlongEdges(p: Pool, ops: seq<Op>, i: nat, id: DriverId)
    requires WellFormed(p) && i < |ops|
    requires Has(At(p, ops, i), id) && Has(At(p, ops, i + 1), id)
    ensures var before := Get(At(p, ops, i), id).driver;
      var after := Get(At(p, ops, i + 1), id).driver;
      before.status != after.status ==>
        && Edge(before.status, ops[i], after.status)
        && (ops[i].Select? || ops[i].id == id)
  {
    AtStep(p, ops, i);
    StepIsLocal(At(p, ops, i), ops[i], id);
    LocalMovesAlongEdges(Get(At(p, ops, i), id).driver, Get(At(p, ops, i), id).config, id, ops[i]);
  }

  // ---------------------------------------------------------------------------------------------
  // Status against the outcome log
  // ---------------------------------------------------------------------------------------------

  /** The outcomes (true for a success) recorded for a driver since its latest registration. */
  ghost function OutcomeLog(ops: seq<Op>, id: DriverId): seq<bool> {
    if ops == [] then []
    else
      var earlier := ops[..|ops| - 1];
      var before := Run([], earlier);
      var log := OutcomeLog(earlier, id);
      match ops[|ops| - 1]
      case Register(r, _) => if r == id && !Has(before, id) then [] else log
      case Success(r, _) => if r == id && Has(before, id) then log + [true] else log
      case Failure(r, _, _) => if r == id && Has(before, id) then log + [false] else log
      case _ => log
  }

  ghost function TrailingFailures(log: seq<bool>): nat {
    if log == [] || log[|log| - 1] then 0 else 1 + TrailingFailures(log[..|log| - 1])
  }

  ghost function CountOf(log: seq<bool>, outcome: bool): nat {
    if log == [] then 0
    else CountOf(log[..|log| - 1], outcome) + (if log[|log| - 1] == outcome then 1 else 0)
  }

  /** Where the failure run stands for each status, by the half threshold and the threshold. */
  ghost predicate StatusFits(d: Driver, threshold: int) {
    var c := d.consecutiveFailures;
    var h := if threshold >= 2 then threshold / 2 else 1;
    match d.status
    case Healthy => c < h
    case Degraded => c == h < threshold
    case Failing => c < threshold
    case _ => true
  }

  ghost predicate CountersFit(d: Driver, log: seq<bool>) {
    && d.consecutiveFailures == TrailingFailures(log)
    && d.totalFailures == CountOf(log, false)
    && d.totalSuccesses == CountOf(log, true)
  }

  /** What ties a driver's record to its outcomes. */
  ghost predicate MatchesLog(d: Driver, threshold: int, log: seq<bool>) {
    CountersFit(d, log) && StatusFits(d, threshold)
  }

  lemma {:induction false} AppendOutcome(log: seq<bool>, outcome: bool)
    ensures TrailingFailures(log + [outcome]) == if outcome then 0 else 1 + TrailingFailures(log)
    ensures CountOf(log + [outcome], outcome) == CountOf(log, outcome) + 1
    ensures CountOf(log + [outcome], !outcome) == CountOf(log, !outcome)
  {
    assert (log + [outcome])[..|log|] == log;
  }

  /** The log of a registered driver after one more operation. */
  ghost function LogAfter(log: seq<bool>, id: DriverId, op: Op): seq<bool> {
    match op
    case Success(r, _) => if r == id then log + [true] else log
    case Failure(r, _, _) => if r == id then log + [false] else log
    case _ => log
  }

  lemma {:induction false} LocalKeepsStatus(d: Driver, config: Config, id: DriverId, op: Op)
    requires StatusFits(d, config.failureThreshold)
    ensures StatusFits(Local(d, config, id, op), config.failureThreshold)
  {
  }

  /** The driver's counters after one more outcome. */
  ghost predicate Counted(d: Driver, after: Driver, outcome: bool) {
    && after.consecutiveFailures == (if outcome then 0 else d.consecutiveFailures + 1)
    && after.totalFailures == d.totalFailures + (if outcome then 0 else 1)
    && after.totalSuccesses == d.totalSuccesses + (if outcome then 1 else 0)
  }

  lemma {:induction false} CountedFits(d: Driver, after: Driver, log: seq<bool>, outcome: bool)
    requires CountersFit(d, log) && Counted(d, after, outcome)
    ensures CountersFit(after, log + [outcome])
  {
    AppendOutcome(log, outcome);
  }

  lemma {:induction false} LocalKeepsCounters(d: Driver, config: Config, log: seq<bool>, id: DriverId, op: Op)
    requires CountersFit(d, log)
    ensures CountersFit(Local(d, config, id, op), LogAfter(log, id, op))
  {
    if op.Success? && op.id == id {
      CountedFits(d, AfterSuccess(d, op.now), log, true);
    } else if op.Failure? && op.id == id {
      CountedFits(d, AfterFailure(d, config.failureThreshold, op.failedAt, op.openedAt), log, false);
    }
  }

  lemma {:induction false} AwakenedKeepsIds(p: Pool, now: real, id: DriverId)
    ensures Has(Awakened(p, now), id) == Has(p, id)
  {
    var after := Awakened(p, now);
    assert Has(p, id) ==> after[IndexOf(p, id)].id == id;
    assert Has(after, id) ==> p[IndexOf(after, id)].id == id;
  }

  lemma {:induction false} NewcomerIsFresh(p: Pool, op: Op, id: DriverId)
    requires WellFormed(p) && !Has(p, id) && Has(Step(p, op), id)
    ensures op.Register? && op.id == id && Get(Step(p, op), id) == Slot(id, op.config, FRESH)
  {
    StepIsWellFormed(p, op);
    var after := Step(p, op);
    if op.Select? {
      AwakenedKeepsIds(p, op.now, id);
    }
  }

  /** In every reachable pool, each driver's counters and status agree with its outcome log. */
  lemma {:induction false} ReachableStatusMatchesLog(ops: seq<Op>, id: DriverId)
    requires Has(Run([], ops), id)
    ensures var s := Get(Run([], ops), id);
      MatchesLog(s.driver, s.config.failureThreshold, OutcomeLog(ops, id))
  {
    var earlier, op := ops[..|ops| - 1], ops[|ops| - 1];
    var before := Run([], earlier);
    if Has(before, id) {
      ReachableStatusMatchesLog(earlier, id);
      StepIsLocal(before, op, id);
      LocalKeepsStatus(Get(before, id).driver, Get(before, id).config, id, op);
      LocalKeepsCounters(Get(before, id).driver, Get(before, id).config, OutcomeLog(earlier, id), id, op);
    } else {
      NewcomerIsFresh(before, op, id);
    }
  }

  /** `k` recorded failures in a row, with arbitrary clock readings. */
  ghost function Fail(d: Driver, threshold: int, times: seq<(real, real)>): Driver {
    if times == [] then d
    else
      var last := times[|times| - 1];
      AfterFailure(Fail(d, threshold, times[..|times| - 1]), threshold, last.0, last.1)
  }

  /** From a healthy driver with a clean count, the number of straight failures decides the status. */
  lemma {:induction false} StraightFailures(d: Driver, threshold: int, times: seq<(real, real)>)
    requires d.status == Healthy && d.consecutiveFailures == 0
    ensures var k := |times|;
      var h := if threshold >= 2 then threshold / 2 else 1;
      var after := Fail(d, threshold, times);
      && after.consecutiveFailures == k
      && after.status == (if k < h then Healthy
                          else if k >= threshold then CircuitOpen
                          else if k == h then Degraded
                          else Failing)
  {
    if times != [] {
      StraightFailures(d, threshold, times[..|times| - 1]);
    }
  }

  // ---------------------------------------------------------------------------------------------
  // One driver's part of a run
  // ---------------------------------------------------------------------------------------------

  /** A driver's own history: the operations of a run applied to its record alone. */
  ghost function LocalRun(d: Driver, config: Config, id: DriverId, ops: seq<Op>): Driver {
    if ops == [] then d
    else Local(LocalRun(d, config, id, ops[..|ops| - 1]), config, id, ops[|ops| - 1])
  }

  /** While it stays registered, a driver's record in a run of the whole pool is its own history. */
  lemma {:induction false} RunIsLocal(p: Pool, ops: seq<Op>, id: DriverId)
    requires WellFormed(p) && Has(p, id) && Stays(ops, id)
    ensures var after := Run(p, ops);
      && Has(after, id)
      && Get(after, id).config == Get(p, id).config
      && Get(after, id).driver == LocalRun(Get(p, id).driver, Get(p, id).config, id, ops)
  {
    if ops != [] {
      var earlier, op := ops[..|ops| - 1], ops[|ops| - 1];
      RunIsLocal(p, earlier, id);
      StepIsLocal(Run(p, earlier), op, id);
    }
  }

  /** A selection does not return a driver that its own clock check leaves unavailable. */
  lemma {:induction false} UnavailableIsNotChosen(p: Pool, op: Op, id: DriverId)
    requires WellFormed(p) && Has(p, id) && op.Select?
    requires !IsAvailable(Local(Get(p, id).driver, Get(p, id).config, id, op))
    ensures Chosen(p, op) != Some(id)
  {
    SelectionIsStableMinimum(p, op);
  }

  ghost function Chosen(p: Pool, op: Op): Option<DriverId>
    requires WellFormed(p) && op.Select?
  {
    match Outcome(p, op)
    case None => None
    case Some(d) => Some(d.selected)
  }

  ghost predicate NeverChosen(p: Pool, ops: seq<Op>, id: DriverId)
    requires WellFormed(p)
  {
    forall i :: 0 <= i < |ops| && ops[i].Select? ==> Chosen(At(p, ops, i), ops[i]) != Some(id)
  }

  // ---------------------------------------------------------------------------------------------
  // The circuit timer
  // ---------------------------------------------------------------------------------------------

  ghost predicate NoSelectAfterTimeout(ops: seq<Op>, openedAt: real, timeout: real) {
    forall i :: 0 <= i < |ops| && ops[i].Select? ==> ops[i].now - openedAt < timeout
  }

  lemma {:induction false} OpenStaysOpen(d: Driver, config: Config, id: DriverId, ops: seq<Op>)
    requires d.status == CircuitOpen
    requires NoSelectAfterTimeout(ops, d.circuitOpenedAt, config.recoveryTimeout)
    ensures var after := LocalRun(d, config, id, ops);
      after.status == CircuitOpen && after.circuitOpenedAt == d.circuitOpenedAt
  {
    if ops != [] {
      OpenStaysOpen(d, config, id, ops[..|ops| - 1]);
    }
  }

  /**
   An open circuit stays open, with its opening time untouched and its driver never chosen, through
   any recorded outcomes and any selections made before its opening time plus its timeout.
   */
  lemma {:induction false} CircuitTimerHolds(p: Pool, ops: seq<Op>, id: DriverId)
    requires WellFormed(p) && Has(p, id) && Get(p, id).driver.status == CircuitOpen
    requires Stays(ops, id)
    requires NoSelectAfterTimeout(ops, Get(p, id).driver.circuitOpenedAt, Get(p, id).config.recoveryTimeout)
    ensures var after := Run(p, ops);
      && Has(after, id)
      && Get(after, id).driver.status == CircuitOpen
      && Get(after, id).driver.circuitOpenedAt == Get(p, id).driver.circuitOpenedAt
    ensures NeverChosen(p, ops, id)
  {
    RunIsLocal(p, ops, id);
    OpenStaysOpen(Get(p, id).driver, Get(p, id).config, id, ops);
    forall i | 0 <= i < |ops| && ops[i].Select? ensures Chosen(At(p, ops, i), ops[i]) != Some(id) {
      RunIsLocal(p, ops[..i], id);
      OpenStaysOpen(Get(p, id).driver, Get(p, id).config, id, ops[..i]);
      UnavailableIsNotChosen(At(p, ops, i), ops[i], id);
    }
  }

  /**
   The first selection at or after the timeout makes the driver eligible, so that selection cannot
   come back empty.
   */
  lemma {:induction false} FirstSelectAfterTimeout(p: Pool, id: DriverId, op: Op)
    requires WellFormed(p) && Has(p, id) && Get(p, id).driver.status == CircuitOpen
    requires op.Select? && TimeoutElapsed(Get(p, id).driver, Get(p, id).config.recoveryTimeout, op.now)
    ensures var after := Step(p, op);
      && Has(after, id) && Get(after, id).driver.status == Recovering
      && id in AvailableDrivers(after)
      && Chosen(p, op).Some?
  {
    StepIsLocal(p, op, id);
    SelectionIsStableMinimum(p, op);
    var after := Step(p, op);
    var sorted := SortByPriority(after);
    assert Get(after, id) in Eligible(after);
    SortKeepsElements(after);
    AvailableMembers(sorted);
    var k :| 0 <= k < |AvailableAmong(sorted)| && AvailableAmong(sorted)[k] == Get(after, id);
    assert AvailableDrivers(after)[k] == id;
  }

  // ---------------------------------------------------------------------------------------------
  // The way back to health
  // ---------------------------------------------------------------------------------------------

  /** Operation `i` is a selection, after the timeout, that half-opens the driver's circuit. */
  ghost predicate HalfOpens(d: Driver, config: Config, id: DriverId, ops: seq<Op>, i: nat)
    requires i < |ops|
  {
    var before := LocalRun(d, config, id, ops[..i]);
    before.status == CircuitOpen && ops[i].Select? && TimeoutElapsed(before, config.recoveryTimeout, ops[i].now)
  }

  /** Operation `j` is a success recorded while the driver is half-open. */
  ghost predicate ProbeSucceeds(d: Driver, config: Config, id: DriverId, ops: seq<Op>, j: nat)
    requires j < |ops|
  {
    LocalRun(d, config, id, ops[..j]).status == Recovering && ops[j].Success? && ops[j].id == id
  }

  ghost predicate HalfOpened(d: Driver, config: Config, id: DriverId, ops: seq<Op>) {
    exists i :: 0 <= i < |ops| && HalfOpens(d, config, id, ops, i)
  }

  ghost predicate HalfOpenedThenHealed(d: Driver, config: Config, id: DriverId, ops: seq<Op>) {
    exists i, j :: 0 <= i < j < |ops| && HalfOpens(d, config, id, ops, i) && ProbeSucceeds(d, config, id, ops, j)
  }

  lemma {:induction false} LocalHealthNeedsProbe(d: Driver, config: Config, id: DriverId, ops: seq<Op>)
    requires d.status == Failing || d.status == CircuitOpen
    ensures var after := LocalRun(d, config, id, ops);
      && (after.status == Recovering ==> HalfOpened(d, config, id, ops))
      && (after.status == Healthy || after.status == Degraded ==> HalfOpenedThenHealed(d, config, id, ops))
  {
    if ops != [] {
      var n := |ops| - 1;
      var earlier := ops[..n];
      LocalHealthNeedsProbe(d, config, id, earlier);
      assert forall i :: 0 <= i < n ==> earlier[..i] == ops[..i];
      assert forall i :: 0 <= i < n && HalfOpens(d, config, id, earlier, i) ==> HalfOpens(d, config, id, ops, i);
      assert forall i :: 0 <= i < n && ProbeSucceeds(d, config, id, earlier, i) ==>
        ProbeSucceeds(d, config, id, ops, i);
      var before, after := LocalRun(d, config, id, earlier), LocalRun(d, config, id, ops);
      LocalMovesAlongEdges(before, config, id, ops[n]);
      if before.status == CircuitOpen && after.status == Recovering {
        assert HalfOpens(d, config, id, ops, n);
      } else if before.status == Recovering && after.status == Healthy {
        assert ProbeSucceeds(d, config, id, ops, n);
      }
    }
  }

  /**
   A driver that was failing or open can be half-open only after a selection past its timeout, and
   healthy or degraded only after such a selection followed by a success recorded while half-open.
   */
  lemma {:induction false} HealthNeedsProbe(p: Pool, ops: seq<Op>, id: DriverId)
    requires WellFormed(p) && Has(p, id) && Stays(ops, id)
    requires Get(p, id).driver.status == Failing || Get(p, id).driver.status == CircuitOpen
    ensures var after := Run(p, ops);
      && Has(after, id)
      && (Get(after, id).driver.status == Recovering ==> HalfOpened(Get(p, id).driver, Get(p, id).config, id, ops))
      && (Get(after, id).driver.status == Healthy || Get(after, id).driver.status == Degraded ==>
            HalfOpenedThenHealed(Get(p, id).driver, Get(p, id).config, id, ops))
  {
    RunIsLocal(p, ops, id);
    LocalHealthNeedsProbe(Get(p, id).driver, Get(p, id).config, id, ops);
  }

  ghost predicate NoFailureOf(ops: seq<Op>, id: DriverId) {
    forall i :: 0 <= i < |ops| && ops[i].Failure? ==> ops[i].id != id
  }

  lemma {:induction false} FailingStaysFailing(d: Driver, config: Config, id: DriverId, ops: seq<Op>)
    requires d.status == Failing && NoFailureOf(ops, id)
    ensures LocalRun(d, config, id, ops).status == Failing
  {
    if ops != [] {
      FailingStaysFailing(d, config, id, ops[..|ops| - 1]);
    }
  }

  /**
   A failing driver stays failing, and is never chosen, until another failure is recorded for it:
   successes and the passage of time do not help it.
   */
  lemma {:induction false} FailingWaitsForFailure(p: Pool, ops: seq<Op>, id: DriverId)
    requires WellFormed(p) && Has(p, id) && Get(p, id).driver.status == Failing
    requires Stays(ops, id) && NoFailureOf(ops, id)
    ensures Has(Run(p, ops), id) && Get(Run(p, ops), id).driver.status == Failing
    ensures NeverChosen(p, ops, id)
  {
    RunIsLocal(p, ops, id);
    FailingStaysFailing(Get(p, id).driver, Get(p, id).config, id, ops);
    forall i | 0 <= i < |ops| && ops[i].Select? ensures Chosen(At(p, ops, i), ops[i]) != Some(id) {
      RunIsLocal(p, ops[..i], id);
      FailingStaysFailing(Get(p, id).driver, Get(p, id).config, id, ops[..i]);
      UnavailableIsNotChosen(At(p, ops, i), ops[i], id);
    }
  }

  /** `id` has the least priority of the whole pool, and the earliest registration among its equals. */
  ghost predicate IsPrimary(p: Pool, id: DriverId) {
    Has(p, id) && IsFirst(p, Elements(p), Get(p, id))
  }

  /**
   The half-open state does not ration probes: while no outcome arrives, every further selection
   hands out the same half-open primary.
   */
  lemma {:induction false} HalfOpenIsNotRationed(p: Pool, ops: seq<Op>, id: DriverId)
    requires WellFormed(p) && IsPrimary(p, id) && Get(p, id).driver.status == Recovering
    requires forall i :: 0 <= i < |ops| ==> ops[i].Select?
    ensures IsPrimary(Run(p, ops), id) && Get(Run(p, ops), id).driver.status == Recovering
    ensures forall i :: 0 <= i < |ops| ==> Chosen(At(p, ops, i), ops[i]) == Some(id)
  {
    if ops != [] {
      var earlier, op := ops[..|ops| - 1], ops[|ops| - 1];
      HalfOpenIsNotRationed(p, earlier, id);
      PrimarySurvivesSelect(Run(p, earlier), op, id);
      forall i | 0 <= i < |ops| ensures Chosen(At(p, ops, i), ops[i]) == Some(id) {
        if i < |earlier| {
          assert ops[..i] == earlier[..i] && ops[i] == earlier[i];
        }
      }
    }
  }

  /** The selection order by position: priority first, registration order among equals. */
  predicate AheadAt(p: Pool, i: nat, j: nat)
    requires i < |p| && j < |p|
  {
    p[i].config.priority < p[j].config.priority || (p[i].config.priority == p[j].config.priority && i < j)
  }

  lemma {:induction false} AheadByPosition(p: Pool, i: nat, j: nat)
    requires WellFormed(p) && i < |p| && j < |p|
    ensures Ahead(p, p[i], p[j]) <==> AheadAt(p, i, j)
  {
    if Precedes(p, p[i].id, p[j].id) {
      var m, n :| 0 <= m < n < |p| && p[m].id == p[i].id && p[n].id == p[j].id;
      assert m == i && n == j;
    }
  }

  /** A driver is chosen exactly when it is available after the clock check and no driver ahead of it is. */
  lemma {:induction false} ChosenIff(p: Pool, op: Op, i: nat)
    requires WellFormed(p) && op.Select? && i < |p|
    ensures var q := Step(p, op);
      Chosen(p, op) == Some(p[i].id) <==>
        IsAvailable(q[i].driver) && forall j :: 0 <= j < |q| && AheadAt(q, j, i) ==> !IsAvailable(q[j].driver)
  {
    var q := Step(p, op);
    StepIsWellFormed(p, op);
    SelectionIsStableMinimum(p, op);
    assert IsAvailable(q[i].driver) ==> q[i] in Eligible(q);
    if Outcome(p, op).Some? {
      var k := IndexOf(q, Outcome(p, op).value.selected);
      assert IsFirst(q, Eligible(q), q[k]) && q[k] in Eligible(q);
      forall j | 0 <= j < |q| && j != k && IsAvailable(q[j].driver) ensures AheadAt(q, k, j) {
        assert q[j] in Eligible(q) && q[j] != q[k];
        AheadByPosition(q, k, j);
      }
      assert q[i].id == p[i].id;
    }
  }

  /**
   When the source's promise of a single test call is kept at the next selection: the driver just
   chosen, half-open or not, is chosen again if and only if no open driver ahead of it is past its
   timeout by then.
   */
  lemma {:induction false} ChosenAgainIff(p: Pool, first: Op, second: Op, i: nat)
    requires WellFormed(p) && first.Select? && second.Select? && i < |p|
    requires Chosen(p, first) == Some(p[i].id)
    ensures var q := Step(p, first);
      && WellFormed(q)
      && (Chosen(q, second) == Some(p[i].id) <==>
          forall j :: 0 <= j < |q| && AheadAt(q, j, i) ==>
            !(q[j].driver.status == CircuitOpen &&
              TimeoutElapsed(q[j].driver, q[j].config.recoveryTimeout, second.now)))
  {
    var q := Step(p, first);
    StepIsWellFormed(p, first);
    ChosenIff(p, first, i);
    ChosenIff(q, second, i);
    var r := Step(q, second);
    forall j | 0 <= j < |q| ensures AheadAt(r, j, i) == AheadAt(q, j, i) {
    }
  }

  lemma {:induction false} PrimarySurvivesSelect(p: Pool, op: Op, id: DriverId)
    requires WellFormed(p) && op.Select? && IsPrimary(p, id) && Get(p, id).driver.status == Recovering
    ensures var after := Step(p, op); IsPrimary(after, id) && Get(after, id).driver.status == Recovering
    ensures Chosen(p, op) == Some(id)
  {
    var after := Step(p, op);
    StepIsLocal(p, op, id);
    SelectionIsStableMinimum(p, op);
    assert Get(after, id) in Eligible(after);
    PrimaryStaysFirst(p, op.now, id);
    FirstIsUnique(after, Elements(after), Get(after, Outcome(p, op).value.primary), Get(after, id));
  }

  /** The clock check keeps the selection order. */
  lemma {:induction false} PrimaryStaysFirst(p: Pool, now: real, id: DriverId)
    requires WellFormed(p) && IsPrimary(p, id)
    ensures IsPrimary(Awakened(p, now), id)
  {
    var after, i := Awakened(p, now), IndexOf(p, id);
    assert after[i].id == id && IndexOf(after, id) == i;
    forall b | b in after && b != after[i] ensures Ahead(after, after[i], b) {
      var j :| 0 <= j < |after| && after[j] == b;
      assert p[j] in p && Ahead(p, p[i], p[j]);
      if Precedes(p, id, p[j].id) {
        var m, n :| 0 <= m < n < |p| && p[m].id == id && p[n].id == p[j].id;
        assert after[m].id == id && after[n].id == b.id;
      }
    }
  }

  // ---------------------------------------------------------------------------------------------
  // The decision log
  // ---------------------------------------------------------------------------------------------

  /** What reaches the decision log: decisions returned by selections, and `clear`. */
  datatype LogEvent = Returned(decision: Decision) | Wiped

  /** Every decision returned since the log was last wiped. */
  ghost function AllDecisions(events: seq<LogEvent>): seq<Decision> {
    if events == [] then []
    else
      match events[|events| - 1]
      case Wiped => []
      case Returned(d) => AllDecisions(events[..|events| - 1]) + [d]
  }

  /** The bounded log after the same events. */
  ghost function DecisionLog(events: seq<LogEvent>, maxDecisions: int): seq<Decision> {
    if events == [] then []
    else
      match events[|events| - 1]
      case Wiped => []
      case Returned(d) => Logged(DecisionLog(events[..|events| - 1], maxDecisions), d, maxDecisions)
  }

  lemma {:induction false} LoggedIsTail(log: seq<Decision>, all: seq<Decision>, d: Decision, maxDecisions: int)
    requires |log| <= Max(1, maxDecisions) && |log| <= |all| && log == all[|all| - |log|..]
    ensures var after := Logged(log, d, maxDecisions);
      && 0 < |after| <= Max(1, maxDecisions) && |after| <= |all| + 1
      && after == (all + [d])[|all| + 1 - |after|..]
  {
    var kept := Logged(log, d, maxDecisions)[..|Logged(log, d, maxDecisions)| - 1];
    assert kept == log[|log| - |kept|..] == all[|all| - |kept|..];
  }

  /** The log is the tail of the decisions taken: bounded, in order, and always holding the latest one. */
  lemma {:induction false} DecisionLogIsTail(events: seq<LogEvent>, maxDecisions: int)
    ensures var log, all := DecisionLog(events, maxDecisions), AllDecisions(events);
      && |log| <= Max(1, maxDecisions)
      && |log| <= |all| && log == all[|all| - |log|..]
      && (all != [] ==> log != [])
  {
    if events != [] && events[|events| - 1].Returned? {
      var earlier := events[..|events| - 1];
      DecisionLogIsTail(earlier, maxDecisions);
      LoggedIsTail(DecisionLog(earlier, maxDecisions), AllDecisions(earlier), events[|events| - 1].decision,
        maxDecisions);
    }
  }
}
