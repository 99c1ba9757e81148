/**
 What a driver's record says of its history: how a half-open probe ends, which failure opened a
 circuit and when, when the latest outcomes came, and how long the decision log is. Operations are
 read off the run itself, and drivers are described by their statuses alone.
 */
module FailoverHistory {
  import opened Common
  import opened FailoverSpec
  import opened FailoverRuns

  /** The status of a driver of the pool. */
  ghost function StatusIn(p: Pool, id: DriverId): Status
    requires Has(p, id)
  {
    Get(p, id).driver.status
  }

  ghost predicate IsOutcomeOf(op: Op, id: DriverId) { (op.Success? || op.Failure?) && op.id == id }

  ghost predicate NoOutcomeOf(ops: seq<Op>, id: DriverId) {
    forall i :: 0 <= i < |ops| ==> !IsOutcomeOf(ops[i], id)
  }

  // ---------------------------------------------------------------------------------------------
  // How a probe ends
  // ---------------------------------------------------------------------------------------------

  /** A half-open driver's record does not change until its next own outcome. */
  lemma {:induction false} HalfOpenWaits(p: Pool, ops: seq<Op>, id: DriverId)
    requires WellFormed(p) && Has(p, id) && StatusIn(p, id) == Recovering
    requires Stays(ops, id) && NoOutcomeOf(ops, id)
    ensures Has(Run(p, ops), id) && Get(Run(p, ops), id) == Get(p, id)
  {
    if ops != [] {
      var earlier, op := ops[..|ops| - 1], ops[|ops| - 1];
      HalfOpenWaits(p, earlier, id);
      StepIsLocal(Run(p, earlier), op, id);
    }
  }

  /**
   The next own outcome decides the probe, whatever happens to the rest of the pool in the meantime: a
   success makes the driver healthy, with a clean count and no opening time, and a failure opens its
   circuit again from that failure's reading.
   */
  lemma {:induction false} ProbeDecides(p: Pool, ops: seq<Op>, outcome: Op, id: DriverId)
    requires WellFormed(p) && Has(p, id) && StatusIn(p, id) == Recovering
    requires Stays(ops, id) && NoOutcomeOf(ops, id) && IsOutcomeOf(outcome, id)
    ensures var after := Run(p, ops + [outcome]);
      && Has(after, id)
      && var d := Get(after, id).driver;
         if outcome.Success? then d.status == Healthy && d.consecutiveFailures == 0 && d.circuitOpenedAt == 0.0
         else d.status == CircuitOpen && d.circuitOpenedAt == outcome.openedAt
  {
    HalfOpenWaits(p, ops, id);
    assert (ops + [outcome])[..|ops|] == ops;
    StepIsLocal(Run(p, ops), outcome, id);
  }

  // ---------------------------------------------------------------------------------------------
  // The failure that opened a circuit
  // ---------------------------------------------------------------------------------------------

  /** The driver is registered, and open, in the pool that the operations lead to. */
  ghost predicate IsOpenAfter(ops: seq<Op>, id: DriverId) {
    Has(Run([], ops), id) && StatusIn(Run([], ops), id) == CircuitOpen
  }

  /**
   Operation `i` is the failure that last opened the driver's circuit: it was not open before, and
   has been ever since.
   */
  ghost predicate OpenedAt(ops: seq<Op>, id: DriverId, i: nat) {
    && i < |ops| && ops[i].Failure? && ops[i].id == id
    && !IsOpenAfter(ops[..i], id)
    && forall k :: i < k <= |ops| ==> IsOpenAfter(ops[..k], id)
  }

  lemma {:induction false} OpeningStep(ops: seq<Op>, id: DriverId)
    requires ops != [] && IsOpenAfter(ops, id)
    ensures var earlier, op := ops[..|ops| - 1], ops[|ops| - 1];
      var openedAt := Get(Run([], ops), id).driver.circuitOpenedAt;
      if IsOpenAfter(earlier, id) then openedAt == Get(Run([], earlier), id).driver.circuitOpenedAt
      else op.Failure? && op.id == id && openedAt == op.openedAt
  {
    var before, op := Run([], ops[..|ops| - 1]), ops[|ops| - 1];
    if Has(before, id) {
      StepIsLocal(before, op, id);
    } else {
      NewcomerIsFresh(before, op, id);
    }
  }

  /** In every reachable pool, an open circuit carries the reading of the failure that opened it. */
  lemma {:induction false} OpeningIsRecorded(ops: seq<Op>, id: DriverId) returns (i: nat)
    requires IsOpenAfter(ops, id)
    ensures OpenedAt(ops, id, i)
    ensures Get(Run([], ops), id).driver.circuitOpenedAt == ops[i].openedAt
  {
    var earlier := ops[..|ops| - 1];
    OpeningStep(ops, id);
    if IsOpenAfter(earlier, id) {
      i := OpeningIsRecorded(earlier, id);
      OpenedStays(ops, id, i);
    } else {
      i := |ops| - 1;
      assert ops[..i + 1] == ops;
    }
  }

  lemma {:induction false} OpenedStays(ops: seq<Op>, id: DriverId, i: nat)
    requires ops != [] && IsOpenAfter(ops, id) && OpenedAt(ops[..|ops| - 1], id, i)
    ensures OpenedAt(ops, id, i)
  {
    var earlier := ops[..|ops| - 1];
    assert earlier[..i] == ops[..i] && ops[..|ops|] == ops;
    forall k | i < k <= |ops| ensures IsOpenAfter(ops[..k], id) {
      if k < |ops| {
        assert earlier[..k] == ops[..k];
      }
    }
  }

  /** No selection is made with that much time, or more, elapsed since a reading. */
  ghost predicate NoSelectFrom(ops: seq<Op>, openedAt: real, timeout: real) {
    forall i :: 0 <= i < |ops| && ops[i].Select? ==> ops[i].now - openedAt < timeout
  }

  /**
   The breaker, from the failure that opened it: until the timeout has passed since that failure's
   reading, the circuit stays open and the driver is never chosen, whatever outcomes are recorded.
   */
  lemma {:induction false} BreakerHolds(ops: seq<Op>, later: seq<Op>, id: DriverId, i: nat)
    requires IsOpenAfter(ops, id) && OpenedAt(ops, id, i) && Stays(later, id)
    requires NoSelectFrom(later, ops[i].openedAt, Get(Run([], ops), id).config.recoveryTimeout)
    ensures var after := Run(Run([], ops), later); Has(after, id) && StatusIn(after, id) == CircuitOpen
    ensures NeverChosen(Run([], ops), later, id)
  {
    assert ops[..|ops|] == ops;
    OpenedOnce(ops, id, i);
    CircuitTimerHolds(Run([], ops), later, id);
  }

  /** And the first selection with the timeout passed since that reading half-opens it and returns some driver. */
  lemma {:induction false} BreakerReleases(ops: seq<Op>, later: seq<Op>, select: Op, id: DriverId, i: nat)
    requires IsOpenAfter(ops, id) && OpenedAt(ops, id, i) && Stays(later, id)
    requires NoSelectFrom(later, ops[i].openedAt, Get(Run([], ops), id).config.recoveryTimeout)
    requires select.Select? && select.now - ops[i].openedAt >= Get(Run([], ops), id).config.recoveryTimeout
    ensures var p := Run(Run([], ops), later);
      && Has(Step(p, select), id) && StatusIn(Step(p, select), id) == Recovering
      && Chosen(p, select).Some?
  {
    assert ops[..|ops|] == ops;
    OpenedOnce(ops, id, i);
    CircuitTimerHolds(Run([], ops), later, id);
    RunIsLocal(Run([], ops), later, id);
    FirstSelectAfterTimeout(Run(Run([], ops), later), id, select);
  }

  /** There is only one such failure, so its reading is the recorded one. */
  lemma {:induction false} OpenedOnce(ops: seq<Op>, id: DriverId, i: nat)
    requires OpenedAt(ops, id, i)
    ensures IsOpenAfter(ops, id) && Get(Run([], ops), id).driver.circuitOpenedAt == ops[i].openedAt
  {
    assert ops[..|ops|] == ops && IsOpenAfter(ops[..|ops|], id);
    var j := OpeningIsRecorded(ops, id);
    assert !IsOpenAfter(ops[..i], id) && !IsOpenAfter(ops[..j], id);
  }

  /**
   The reading at which a driver's status last turned to failing or open, or zero when it has healed
   from a probe since.
   */
  ghost function LatestTurn(ops: seq<Op>, id: DriverId): real {
    if ops == [] then 0.0
    else
      var earlier, op := ops[..|ops| - 1], ops[|ops| - 1];
      var before, after := Run([], earlier), Run([], ops);
      if !Has(before, id) || !Has(after, id) then 0.0
      else if StatusIn(before, id) == StatusIn(after, id) then LatestTurn(earlier, id)
      else if op.Failure? && (StatusIn(after, id) == Failing || StatusIn(after, id) == CircuitOpen) then op.openedAt
      else if StatusIn(before, id) == Recovering then 0.0
      else LatestTurn(earlier, id)
  }

  /** In every reachable pool and whatever its status, a driver's opening time is that reading. */
  lemma {:induction false} OpeningTimeIsLatestTurn(ops: seq<Op>, id: DriverId)
    requires Has(Run([], ops), id)
    ensures Get(Run([], ops), id).driver.circuitOpenedAt == LatestTurn(ops, id)
  {
    var earlier, op := ops[..|ops| - 1], ops[|ops| - 1];
    var before := Run([], earlier);
    if Has(before, id) {
      OpeningTimeIsLatestTurn(earlier, id);
      StepIsLocal(before, op, id);
    } else {
      NewcomerIsFresh(before, op, id);
    }
  }

  // ---------------------------------------------------------------------------------------------
  // The latest outcomes
  // ---------------------------------------------------------------------------------------------

  /** The reading of the latest success (or failure) recorded for a driver since its registration, or zero. */
  ghost function LatestReading(ops: seq<Op>, id: DriverId, success: bool): real {
    if ops == [] then 0.0
    else
      var earlier := ops[..|ops| - 1];
      if !Has(Run([], earlier), id) then 0.0
      else
        match ops[|ops| - 1]
        case Success(r, now) => if success && r == id then now else LatestReading(earlier, id, success)
        case Failure(r, failedAt, _) => if !success && r == id then failedAt else LatestReading(earlier, id, success)
        case _ => LatestReading(earlier, id, success)
  }

  /** In every reachable pool, each driver carries the readings of its latest success and its latest failure. */
  lemma {:induction false} OutcomeTimesAreLatest(ops: seq<Op>, id: DriverId)
    requires Has(Run([], ops), id)
    ensures var d := Get(Run([], ops), id).driver;
      d.lastSuccessTime == LatestReading(ops, id, true) && d.lastFailureTime == LatestReading(ops, id, false)
  {
    var earlier, op := ops[..|ops| - 1], ops[|ops| - 1];
    var before := Run([], earlier);
    if Has(before, id) {
      OutcomeTimesAreLatest(earlier, id);
      StepIsLocal(before, op, id);
    } else {
      NewcomerIsFresh(before, op, id);
    }
  }

  // ---------------------------------------------------------------------------------------------
  // Registration and availability
  // ---------------------------------------------------------------------------------------------

  /**
   A new id is registered exactly while the pool has fewer than a hundred drivers, healthy and with
   nothing recorded; a known one is left as it is.
   */
  lemma {:induction false} RegistrationAdds(p: Pool, id: DriverId, config: Config)
    requires WellFormed(p)
    ensures var after := Step(p, Register(id, config));
      && (Has(after, id) <==> Has(p, id) || |p| < 100)
      && (Has(p, id) ==> after == p)
      && (!Has(p, id) && Has(after, id) ==>
            Get(after, id) == Slot(id, config, Driver(Healthy, 0, 0, 0, 0.0, 0.0, 0.0)) && |after| == |p| + 1)
  {
    var after := Step(p, Register(id, config));
    if !Has(p, id) && |p| < 100 {
      assert after[|p|].id == id;
      StepIsWellFormed(p, Register(id, config));
      GetIs(after, |p|);
    }
  }

  ghost predicate IsUp(s: Slot) {
    s.driver.status == Healthy || s.driver.status == Degraded || s.driver.status == Recovering
  }

  /**
   The list of available drivers holds exactly the healthy, degraded and half-open ones, each before
   those it precedes in the selection order.
   */
  lemma {:induction false} AvailableListIsOrdered(p: Pool)
    requires WellFormed(p)
    ensures var r := AvailableDrivers(p);
      && (forall id :: id in r <==> Has(p, id) && IsUp(Get(p, id)))
      && (forall i, j :: 0 <= i < j < |r| ==> Has(p, r[i]) && Has(p, r[j]) && Ahead(p, Get(p, r[i]), Get(p, r[j])))
  {
    var sorted := SortByPriority(p);
    var up := AvailableAmong(sorted);
    SortIsStable(p);
    AvailableKeepsOrder(p, sorted);
    forall id ensures id in AvailableDrivers(p) <==> Has(p, id) && IsUp(Get(p, id)) {
      AvailableIffUp(p, id);
    }
    forall i | 0 <= i < |up| ensures Has(p, up[i].id) && Get(p, up[i].id) == up[i] {
      AvailableEntry(p, i);
    }
  }

  lemma {:induction false} AvailableEntry(p: Pool, i: nat)
    requires WellFormed(p) && i < |AvailableDrivers(p)|
    ensures var s := AvailableAmong(SortByPriority(p))[i];
      Has(p, s.id) && Get(p, s.id) == s && IsUp(s) && AvailableDrivers(p)[i] == s.id
  {
    SortKeepsElements(p);
    AvailableMembers(SortByPriority(p));
    var s := AvailableAmong(SortByPriority(p))[i];
    assert s in AvailableAmong(SortByPriority(p));
    GetMember(p, s);
  }

  lemma {:induction false} AvailableIffUp(p: Pool, id: DriverId)
    requires WellFormed(p)
    ensures id in AvailableDrivers(p) <==> Has(p, id) && IsUp(Get(p, id))
  {
    var up, r := AvailableAmong(SortByPriority(p)), AvailableDrivers(p);
    if Has(p, id) && IsUp(Get(p, id)) {
      SortKeepsElements(p);
      AvailableMembers(SortByPriority(p));
      assert Get(p, id) in up;
      var k :| 0 <= k < |up| && up[k] == Get(p, id);
      assert r[k] == id;
    }
    if id in r {
      var k :| 0 <= k < |r| && r[k] == id;
      AvailableEntry(p, k);
    }
  }

  lemma {:induction false} AvailableKeepsOrder(p: Pool, slots: seq<Slot>)
    requires SortedAhead(p, slots)
    ensures SortedAhead(p, AvailableAmong(slots))
  {
    if slots != [] {
      var rest := AvailableAmong(slots[1..]);
      AvailableKeepsOrder(p, slots[1..]);
      AvailableMembers(slots[1..]);
      forall j | 0 <= j < |rest| ensures Ahead(p, slots[0], rest[j]) {
        assert rest[j] in rest;
        var k :| 0 <= k < |slots[1..]| && slots[1..][k] == rest[j];
        assert slots[k + 1] == rest[j];
      }
    }
  }

  // ---------------------------------------------------------------------------------------------
  // The length of the decision log
  // ---------------------------------------------------------------------------------------------

  /**
   The length of a log of capacity `m` after `n` decisions: it fills up, and then drops its `e`
   oldest whenever it is full.
   */
  function LogLength(n: nat, m: nat, e: nat): int
    requires e > 0
  {
    if n <= m then n else m - e + 1 + (n - m - 1) % e
  }

  lemma {:induction false} LogLengthGrows(n: nat, m: nat, e: nat)
    requires 0 < e <= m
    ensures LogLength(n + 1, m, e) == if LogLength(n, m, e) == m then m - e + 1 else LogLength(n, m, e) + 1
    ensures LogLength(n, m, e) <= m
  {
    if n > m {
      NextRemainder(n - m - 1, e);
    }
  }

  lemma {:induction false} NextRemainder(k: nat, e: nat)
    requires e > 0
    ensures (k + 1) % e == if k % e == e - 1 then 0 else k % e + 1
  {
    var q, r := k / e, k % e;
    assert k + 1 == q * e + (r + 1);
    if r == e - 1 {
      RemainderIs(k + 1, q + 1, 0, e);
    } else {
      RemainderIs(k + 1, q, r + 1, e);
    }
  }

  lemma {:induction false} RemainderIs(k: nat, q: nat, r: nat, e: nat)
    requires r < e && k == q * e + r
    ensures k % e == r
  {
    var d := k / e;
    assert k == d * e + k % e;
    assert (d - q) * e == r - k % e;
    if d > q {
      ProductGrows(d - q, e);
    } else if d < q {
      ProductGrows(q - d, e);
    }
  }

  lemma {:induction false} ProductGrows(a: int, e: nat)
    requires a >= 1
    ensures a * e >= e
  {
    assert (a - 1) * e >= 0;
  }

  /**
   The exact number of decisions kept, after any decisions and resets: a tenth of the capacity goes,
   at least one, each time it is full.
   */
  lemma {:induction false} DecisionLogLength(events: seq<LogEvent>, maxDecisions: int)
    ensures |DecisionLog(events, maxDecisions)|
            == LogLength(|AllDecisions(events)|, Max(1, maxDecisions), Max(1, maxDecisions / 10))
  {
    if events != [] && events[|events| - 1].Returned? {
      var earlier := events[..|events| - 1];
      DecisionLogLength(earlier, maxDecisions);
      LogLengthGrows(|AllDecisions(earlier)|, Max(1, maxDecisions), Max(1, maxDecisions / 10));
    }
  }
}
