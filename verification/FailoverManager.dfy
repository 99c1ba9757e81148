/**
 The mutable failover manager, operation by operation, proved against FailoverSpec: every method
 leaves exactly the pool that `Step` describes and returns exactly what the specification returns.
 Clock readings are parameters; each method runs under the manager's lock, so it is one step.
 */
module FailoverManagement {
  import opened Common
  import opened FailoverSpec

  /** A driver's entry: its settings, which never change, and its record, which the manager updates in place. */
  class FailoverState {
    const id: DriverId
    const config: Config
    var status: Status
    var consecutiveFailures: nat
    var totalFailures: nat
    var totalSuccesses: nat
    var lastFailureTime: real
    var lastSuccessTime: real
    var circuitOpenedAt: real

    constructor (id: DriverId, config: Config)
      ensures Entry() == Slot(id, config, FRESH)
    {
      this.id, this.config := id, config;
      status, consecutiveFailures, totalFailures, totalSuccesses := Healthy, 0, 0, 0;
      lastFailureTime, lastSuccessTime, circuitOpenedAt := 0.0, 0.0, 0.0;
    }

    function Snapshot(): Driver
      reads this
    {
      Driver(status, consecutiveFailures, totalFailures, totalSuccesses, lastFailureTime, lastSuccessTime,
        circuitOpenedAt)
    }

    function Entry(): Slot
      reads this
    {
      Slot(id, config, Snapshot())
    }

    method NoteSuccess(now: real)
      modifies this
      ensures Snapshot() == AfterSuccess(old(Snapshot()), now)
    {
      consecutiveFailures := 0;
      totalSuccesses := totalSuccesses + 1;
      lastSuccessTime := now;
      if status == Recovering {
        status := Healthy;
        circuitOpenedAt := 0.0;
      } else if status == Degraded {
        status := Healthy;
      }
    }

    method NoteFailure(threshold: int, failedAt: real, openedAt: real)
      modifies this
      ensures Snapshot() == AfterFailure(old(Snapshot()), threshold, failedAt, openedAt)
    {
      consecutiveFailures := consecutiveFailures + 1;
      totalFailures := totalFailures + 1;
      lastFailureTime := failedAt;
      var halfThreshold := Max(1, threshold / 2);
      if status == Recovering {
        status := CircuitOpen;
        circuitOpenedAt := openedAt;
      } else if consecutiveFailures >= threshold {
        if status != CircuitOpen {
          status := Failing;
          status := CircuitOpen;
          circuitOpenedAt := openedAt;
        }
      } else if status == Degraded && consecutiveFailures >= halfThreshold {
        status := Failing;
        circuitOpenedAt := openedAt;
      } else if status == Healthy && consecutiveFailures >= halfThreshold {
        status := Degraded;
      }
    }

    method NoteClock(recoveryTimeout: real, now: real)
      modifies this
      ensures Snapshot() == AfterClock(old(Snapshot()), recoveryTimeout, now)
    {
      if status == CircuitOpen {
        var elapsed := now - circuitOpenedAt;
        if elapsed >= recoveryTimeout {
          status := Recovering;
        }
      }
    }
  }

  /** How many drivers of a pool have a status. */
  function CountStatus(p: Pool, s: Status): nat {
    if p == [] then 0 else CountStatus(p[..|p| - 1], s) + (if p[|p| - 1].driver.status == s then 1 else 0)
  }

  function CountFallbacks(decisions: seq<Decision>): nat {
    if decisions == [] then 0
    else CountFallbacks(decisions[..|decisions| - 1]) + if decisions[|decisions| - 1].fallbackUsed then 1 else 0
  }

  /** The counts are the numbers of drivers in a status, and of decisions that fell back. */
  lemma {:induction false} CountsAreCardinalities(p: Pool, s: Status)
    ensures CountStatus(p, s) == |Positions(p, (x: Slot) => x.driver.status == s)|
  {
    if p != [] {
      CountsAreCardinalities(p[..|p| - 1], s);
      PositionsGrow(p, (x: Slot) => x.driver.status == s);
    }
  }

  lemma {:induction false} FallbacksAreCardinalities(decisions: seq<Decision>)
    ensures CountFallbacks(decisions) == |Positions(decisions, (d: Decision) => d.fallbackUsed)|
  {
    if decisions != [] {
      FallbacksAreCardinalities(decisions[..|decisions| - 1]);
      PositionsGrow(decisions, (d: Decision) => d.fallbackUsed);
    }
  }

  /** The statistics omit the half-open drivers, so the four counts fall short of the pool by their number. */
  lemma {:induction false} CountsPartitionThePool(p: Pool)
    ensures CountStatus(p, Healthy) + CountStatus(p, Degraded) + CountStatus(p, Failing)
            + CountStatus(p, CircuitOpen) + CountStatus(p, Recovering) == |p|
  {
    if p != [] {
      CountsPartitionThePool(p[..|p| - 1]);
    }
  }

  /** The first available entry decides. */
  lemma {:induction false} FirstUp(slots: seq<Slot>, i: nat)
    requires i <= |slots| && forall k :: 0 <= k < i ==> !IsAvailable(slots[k].driver)
    ensures i == |slots| ==> AvailableAmong(slots) == []
    ensures i < |slots| && IsAvailable(slots[i].driver) ==>
      AvailableAmong(slots) != [] && AvailableAmong(slots)[0] == slots[i]
  {
    if i > 0 {
      FirstUp(slots[1..], i - 1);
    }
  }

  lemma {:induction false} AvailableIdsFrom(slots: seq<Slot>, i: nat)
    requires i < |slots|
    ensures IdsOf(AvailableAmong(slots[i..]))
            == (if IsAvailable(slots[i].driver) then [slots[i].id] else []) + IdsOf(AvailableAmong(slots[i + 1..]))
  {
    assert slots[i..][1..] == slots[i + 1..];
  }

  class FailoverManager {
    const maxDecisions: int
    /** Both dictionaries, as the entries in insertion order. */
    var states: seq<FailoverState>
    var decisions: seq<Decision>

    ghost predicate Valid()
      reads this`states
    {
      forall i, j :: 0 <= i < j < |states| ==> states[i].id != states[j].id
    }

    ghost function View(): Pool
      reads this`states, states
    {
      var entries := states;
      seq(|entries|, i requires 0 <= i < |entries| reads entries => entries[i].Entry())
    }

    constructor (maxDecisions: int)
      ensures Valid() && View() == [] && decisions == [] && this.maxDecisions == maxDecisions
    {
      this.maxDecisions := maxDecisions;
      states, decisions := [], [];
      new;
      assert View() == [];
    }

    /** The dictionary lookup. */
    method Find(id: DriverId) returns (i: nat)
      requires Valid()
      ensures i == IndexOf(View(), id)
    {
      i := 0;
      while i < |states| && states[i].id != id
        invariant i <= |states|
        invariant forall k :: 0 <= k < i ==> View()[k].id != id
      {
        i := i + 1;
      }
      assert i < |states| ==> View()[i].id == id;
    }

    method RegisterDriver(id: DriverId, config: Config) returns (registered: bool)
      requires Valid()
      modifies this`states
      ensures Valid()
      ensures View() == Registered(old(View()), id, config)
      ensures registered == (!Has(old(View()), id) && |old(View())| < MAX_DRIVERS)
      ensures fresh(set s | s in states && s !in old(states))
    {
      var i := Find(id);
      if i < |states| {
        return false;
      }
      if |states| >= MAX_DRIVERS {
        return false;
      }
      forall k | 0 <= k < |states| ensures states[k].id != id {
        assert View()[k].id == states[k].id;
      }
      var s := new FailoverState(id, config);
      states := states + [s];
      return true;
    }

    method UnregisterDriver(id: DriverId) returns (removed: bool)
      requires Valid()
      modifies this`states
      ensures Valid()
      ensures View() == Unregistered(old(View()), id)
      ensures removed == Has(old(View()), id)
    {
      var i := Find(id);
      if i == |states| {
        return false;
      }
      RemoveAt(i);
      return true;
    }

    method RemoveAt(i: nat)
      requires Valid() && i < |states|
      modifies this`states
      ensures Valid()
      ensures View() == old(View())[..i] + old(View())[i + 1..]
    {
      states := states[..i] + states[i + 1..];
    }

    method RecordSuccess(id: DriverId, now: real) returns (recorded: bool)
      requires Valid()
      modifies states
      ensures View() == Succeeded(old(View()), id, now)
      ensures recorded == Has(old(View()), id)
    {
      var i := Find(id);
      if i == |states| {
        return false;
      }
      states[i].NoteSuccess(now);
      return true;
    }

    method RecordFailure(id: DriverId, failedAt: real, openedAt: real) returns (recorded: bool)
      requires Valid()
      modifies states
      ensures View() == Failed(old(View()), id, failedAt, openedAt)
      ensures recorded == Has(old(View()), id)
    {
      var i := Find(id);
      if i == |states| {
        return false;
      }
      states[i].NoteFailure(states[i].config.failureThreshold, failedAt, openedAt);
      return true;
    }

    /** The loop over the circuit breakers that opens every selection. */
    method CheckCircuits(now: real)
      requires Valid()
      modifies states
      ensures View() == Awakened(old(View()), now)
    {
      for i := 0 to |states|
        invariant forall k :: 0 <= k < i ==>
          states[k].Snapshot() == AfterClock(old(states[k].Snapshot()), states[k].config.recoveryTimeout, now)
        invariant forall k :: i <= k < |states| ==> states[k].Snapshot() == old(states[k].Snapshot())
      {
        states[i].NoteClock(states[i].config.recoveryTimeout, now);
      }
    }

    method SelectDriver(now: real, stampedAt: real) returns (decision: Option<Decision>)
      requires Valid()
      modifies this`decisions, states
      ensures View() == Awakened(old(View()), now)
      ensures decision == Choice(View(), stampedAt)
      ensures decisions == if decision.None? then old(decisions)
        else Logged(old(decisions), decision.value, maxDecisions)
    {
      CheckCircuits(now);
      decision := Decide(stampedAt);
      if decision.Some? {
        RecordDecision(decision.value);
      }
    }

    /** The entries as the library sort by priority lists them. */
    method Sorted() returns (sorted: seq<Slot>)
      ensures sorted == SortByPriority(View())
    {
      var entries: seq<Slot> := [];
      for i := 0 to |states|
        invariant entries == View()[..i]
      {
        entries := entries + [states[i].Entry()];
      }
      assert entries == View();
      return SortByPriority(entries);
    }

    /** The primary is tried first, then the others in priority order. */
    method Decide(stampedAt: real) returns (decision: Option<Decision>)
      requires Valid()
      ensures decision == Choice(View(), stampedAt)
    {
      var sorted := Sorted();
      if |sorted| == 0 {
        return None;
      }
      var primary := sorted[0];
      FirstUp(sorted, 0);
      if IsAvailable(primary.driver) || primary.driver.status == Recovering {
        var reason := PrimaryHealthy;
        if primary.driver.status == Recovering {
          reason := CircuitHalfOpen;
        } else if primary.driver.status == Degraded {
          reason := PrimaryDegraded;
        }
        return Some(Decision(primary.id, reason, primary.id, false, stampedAt));
      }
      SortedIdsDiffer(View());
      for i := 1 to |sorted|
        invariant forall k :: 0 <= k < i ==> !IsAvailable(sorted[k].driver)
      {
        var state := sorted[i];
        FirstUp(sorted, i);
        if IsAvailable(state.driver) || state.driver.status == Recovering {
          var reason := FailoverFrom(primary.id);
          if state.driver.status == Recovering {
            reason := CircuitHalfOpen;
          }
          return Some(Decision(state.id, reason, primary.id, true, stampedAt));
        }
      }
      FirstUp(sorted, |sorted|);
      return None;
    }

    method RecordDecision(d: Decision)
      modifies this`decisions
      ensures decisions == Logged(old(decisions), d, maxDecisions)
    {
      if |decisions| >= maxDecisions {
        var evictCount := Max(1, maxDecisions / 10);
        decisions := decisions[Min(|decisions|, evictCount)..];
      }
      decisions := decisions + [d];
    }

    method GetAvailableDrivers() returns (available: seq<DriverId>)
      requires Valid()
      ensures available == AvailableDrivers(View())
    {
      available := [];
      var sorted := Sorted();
      assert sorted[0..] == sorted;
      for i := 0 to |sorted|
        invariant available + IdsOf(AvailableAmong(sorted[i..])) == IdsOf(AvailableAmong(sorted))
      {
        AvailableIdsFrom(sorted, i);
        if IsAvailable(sorted[i].driver) || sorted[i].driver.status == Recovering {
          available := available + [sorted[i].id];
        }
      }
      assert sorted[|sorted|..] == [] && IdsOf(AvailableAmong([])) == [];
    }

    method GetStats()
      returns (healthy: nat, degraded: nat, failing: nat, circuitOpen: nat, total: nat, failovers: nat, logged: nat)
      ensures healthy == CountStatus(View(), Healthy)
      ensures degraded == CountStatus(View(), Degraded)
      ensures failing == CountStatus(View(), Failing)
      ensures circuitOpen == CountStatus(View(), CircuitOpen)
      ensures total == |View()|
      ensures healthy + degraded + failing + circuitOpen + CountStatus(View(), Recovering) == total
      ensures failovers == CountFallbacks(decisions) && logged == |decisions|
    {
      healthy, degraded, failing, circuitOpen := CountStates();
      total, logged := |states|, |decisions|;
      CountsPartitionThePool(View());
      failovers := 0;
      for i := 0 to |decisions|
        invariant failovers == CountFallbacks(decisions[..i])
      {
        assert decisions[..i + 1][..i] == decisions[..i];
        if decisions[i].fallbackUsed {
          failovers := failovers + 1;
        }
      }
      assert decisions[..|decisions|] == decisions;
    }

    method CountStates() returns (healthy: nat, degraded: nat, failing: nat, circuitOpen: nat)
      ensures healthy == CountStatus(View(), Healthy)
      ensures degraded == CountStatus(View(), Degraded)
      ensures failing == CountStatus(View(), Failing)
      ensures circuitOpen == CountStatus(View(), CircuitOpen)
    {
      healthy, degraded, failing, circuitOpen := 0, 0, 0, 0;
      ghost var p := View();
      for i := 0 to |states|
        invariant healthy == CountStatus(p[..i], Healthy)
        invariant degraded == CountStatus(p[..i], Degraded)
        invariant failing == CountStatus(p[..i], Failing)
        invariant circuitOpen == CountStatus(p[..i], CircuitOpen)
      {
        assert p[..i + 1][..i] == p[..i];
        match states[i].status
        case Healthy => healthy := healthy + 1;
        case Degraded => degraded := degraded + 1;
        case Failing => failing := failing + 1;
        case CircuitOpen => circuitOpen := circuitOpen + 1;
        case Recovering =>
      }
      assert p[..|p|] == p;
    }

    method Reset()
      modifies this
      ensures Valid() && View() == [] && decisions == []
    {
      states, decisions := [], [];
    }
  }
}
