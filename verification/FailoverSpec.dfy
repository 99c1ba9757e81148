/**
 The circuit-breaking failover pool (core/drivers/failover_manager.py) as a state machine on values:
 what one outcome or one selection does to a driver, what an operation does to the pool, and what
 every run of operations keeps. The mutable manager in FailoverManager.dfy is proved against it.
 */
module FailoverSpec {
  import opened Common
  import opened Sorting

  datatype DriverId = DriverId(name: string)

  const MAX_DRIVERS := 100

  datatype Status = Healthy | Degraded | Failing | CircuitOpen | Recovering

  datatype Driver = Driver(
    status: Status, consecutiveFailures: nat, totalFailures: nat, totalSuccesses: nat,
    lastFailureTime: real, lastSuccessTime: real, circuitOpenedAt: real)

  const FRESH := Driver(Healthy, 0, 0, 0, 0.0, 0.0, 0.0)

  /** Lower priority is preferred. The threshold is any integer, as the source accepts. */
  datatype Config = Config(priority: int, failureThreshold: int, recoveryTimeout: real)

  datatype Reason = PrimaryHealthy | PrimaryDegraded | CircuitHalfOpen | FailoverFrom(primary: DriverId)

  datatype Decision = Decision(selected: DriverId, reason: Reason, primary: DriverId, fallbackUsed: bool,
    timestamp: real)

  /** The pool's two dictionaries always hold the same keys, so one entry holds a driver's settings and record. */
  datatype Slot = Slot(id: DriverId, config: Config, driver: Driver)

  /** The entries in insertion order. */
  type Pool = seq<Slot>

  // ---------------------------------------------------------------------------------------------
  // One driver
  // ---------------------------------------------------------------------------------------------

  function HalfThreshold(threshold: int): int { Max(1, threshold / 2) }

  predicate IsAvailable(d: Driver) { d.status != CircuitOpen && d.status != Failing }

  function AfterSuccess(d: Driver, now: real): Driver {
    var counted := d.(consecutiveFailures := 0, totalSuccesses := d.totalSuccesses + 1, lastSuccessTime := now);
    match d.status
    case Recovering => counted.(status := Healthy, circuitOpenedAt := 0.0)
    case Degraded => counted.(status := Healthy)
    case _ => counted
  }

  /** `failedAt` and `openedAt` are the two clock readings that the source takes. */
  function AfterFailure(d: Driver, threshold: int, failedAt: real, openedAt: real): Driver {
    var counted := d.(consecutiveFailures := d.consecutiveFailures + 1, totalFailures := d.totalFailures + 1,
      lastFailureTime := failedAt);
    if d.status == Recovering then
      counted.(status := CircuitOpen, circuitOpenedAt := openedAt)
    else if counted.consecutiveFailures >= threshold then
      if d.status == CircuitOpen then counted else counted.(status := CircuitOpen, circuitOpenedAt := openedAt)
    else if d.status == Degraded && counted.consecutiveFailures >= HalfThreshold(threshold) then
      counted.(status := Failing, circuitOpenedAt := openedAt)
    else if d.status == Healthy && counted.consecutiveFailures >= HalfThreshold(threshold) then
      counted.(status := Degraded)
    else
      counted
  }

  predicate TimeoutElapsed(d: Driver, timeout: real, now: real) { now - d.circuitOpenedAt >= timeout }

  /** The half-open check that every selection makes on every driver. */
  function AfterClock(d: Driver, timeout: real, now: real): Driver {
    if d.status == CircuitOpen && TimeoutElapsed(d, timeout, now) then d.(status := Recovering) else d
  }

  // ---------------------------------------------------------------------------------------------
  // Lookup
  // ---------------------------------------------------------------------------------------------

  ghost predicate WellFormed(p: Pool) {
    forall i, j :: 0 <= i < j < |p| ==> p[i].id != p[j].id
  }

  /** The position of a driver's entry, or the length of the pool when it has none. */
  function IndexOf(p: Pool, id: DriverId): (i: nat)
    ensures i <= |p|
    ensures i < |p| ==> p[i].id == id
    ensures forall k :: 0 <= k < i ==> p[k].id != id
  {
    FirstAt(p, (s: Slot) => s.id, id)
  }

  predicate Has(p: Pool, id: DriverId) { IndexOf(p, id) < |p| }

  function Get(p: Pool, id: DriverId): Slot
    requires Has(p, id)
  {
    p[IndexOf(p, id)]
  }

  lemma {:induction false} GetIs(p: Pool, i: nat)
    requires WellFormed(p) && i < |p|
    ensures Has(p, p[i].id) && Get(p, p[i].id) == p[i] && IndexOf(p, p[i].id) == i
  {
  }

  // ---------------------------------------------------------------------------------------------
  // Stable order by priority
  // ---------------------------------------------------------------------------------------------

  /** `a` is met before `b` when the dictionary is iterated. */
  ghost predicate Precedes(p: Pool, a: DriverId, b: DriverId) {
    exists i, j :: 0 <= i < j < |p| && p[i].id == a && p[j].id == b
  }

  /** The selection order: priority first, registration order among equals. */
  ghost predicate Ahead(p: Pool, a: Slot, b: Slot) {
    a.config.priority < b.config.priority
    || (a.config.priority == b.config.priority && Precedes(p, a.id, b.id))
  }

  predicate NoLaterPriority(a: Slot, b: Slot) { a.config.priority <= b.config.priority }

  /** The stable library sort by priority. */
  function SortByPriority(p: Pool): (r: seq<Slot>)
    ensures |r| == |p|
  {
    Sort(p, NoLaterPriority)
  }

  lemma {:induction false} SortKeepsElements(p: Pool)
    ensures forall y :: y in SortByPriority(p) <==> y in p
  {
    SortPermutes(p, NoLaterPriority);
  }

  ghost predicate SortedAhead(p: Pool, sorted: seq<Slot>) {
    forall i, j :: 0 <= i < j < |sorted| ==> Ahead(p, sorted[i], sorted[j])
  }

  lemma {:induction false} EarlierLeads(p: Pool, i: nat)
    requires i < |p|
    ensures Leads(p[i], p[i + 1..], NoLaterPriority, (a: Slot, b: Slot) => Ahead(p, a, b))
  {
    var later := p[i + 1..];
    forall j | 0 <= j < |later| ensures Precedes(p, p[i].id, later[j].id) {
      assert later[j] == p[i + 1 + j];
    }
  }

  lemma {:induction false} SortIsStable(p: Pool)
    ensures SortedAhead(p, SortByPriority(p))
  {
    ghost var ahead := (a: Slot, b: Slot) => Ahead(p, a, b);
    forall i | 0 <= i < |p| ensures Leads(p[i], p[i + 1..], NoLaterPriority, ahead) {
      EarlierLeads(p, i);
    }
    SortOrders(p, NoLaterPriority, ahead);
    var sorted := SortByPriority(p);
    forall i, j | 0 <= i < j < |sorted| ensures Ahead(p, sorted[i], sorted[j]) {
      assert ahead(sorted[i], sorted[j]);
    }
  }

  // ---------------------------------------------------------------------------------------------
  // The pool
  // ---------------------------------------------------------------------------------------------

  /** The available entries of a list, in the order of the list. */
  function AvailableAmong(slots: seq<Slot>): seq<Slot> {
    if slots == [] then []
    else (if IsAvailable(slots[0].driver) then [slots[0]] else []) + AvailableAmong(slots[1..])
  }

  lemma {:induction false} AvailableMembers(slots: seq<Slot>)
    ensures forall y :: y in AvailableAmong(slots) <==> y in slots && IsAvailable(y.driver)
  {
    if slots != [] {
      AvailableMembers(slots[1..]);
    }
  }

  function IdsOf(slots: seq<Slot>): seq<DriverId> {
    seq(|slots|, i requires 0 <= i < |slots| => slots[i].id)
  }

  /** What `get_available_drivers` returns. */
  function AvailableDrivers(p: Pool): seq<DriverId> {
    IdsOf(AvailableAmong(SortByPriority(p)))
  }

  function PrimaryReason(s: Status): Reason {
    match s
    case Recovering => CircuitHalfOpen
    case Degraded => PrimaryDegraded
    case _ => PrimaryHealthy
  }

  /** The decision taken on a pool whose circuits have already been checked against the clock. */
  function Choice(p: Pool, stampedAt: real): Option<Decision> {
    var sorted := SortByPriority(p);
    var available := AvailableAmong(sorted);
    if available == [] || sorted == [] then None
    else
      var chosen, primary := available[0], sorted[0].id;
      var reason :=
        if chosen.id == primary then PrimaryReason(chosen.driver.status)
        else if chosen.driver.status == Recovering then CircuitHalfOpen
        else FailoverFrom(primary);
      Some(Decision(chosen.id, reason, primary, chosen.id != primary, stampedAt))
  }

  /** The bounded log drops its oldest tenth, at least one entry, before it grows past capacity. */
  function Logged(decisions: seq<Decision>, d: Decision, maxDecisions: int): seq<Decision> {
    if |decisions| >= maxDecisions then
      decisions[Min(|decisions|, Max(1, maxDecisions / 10))..] + [d]
    else
      decisions + [d]
  }

  datatype Op =
    | Register(id: DriverId, config: Config)
    | Unregister(id: DriverId)
    | Success(id: DriverId, now: real)
    | Failure(id: DriverId, failedAt: real, openedAt: real)
    | Select(now: real, stampedAt: real)
    | Clear

  function Awakened(p: Pool, now: real): Pool {
    seq(|p|, i requires 0 <= i < |p| => p[i].(driver := AfterClock(p[i].driver, p[i].config.recoveryTimeout, now)))
  }

  /** The decision that a `Select` operation returns. */
  function Outcome(p: Pool, op: Op): Option<Decision>
    requires op.Select?
  {
    Choice(Awakened(p, op.now), op.stampedAt)
  }

  function Registered(p: Pool, id: DriverId, config: Config): Pool {
    if Has(p, id) || |p| >= MAX_DRIVERS then p else p + [Slot(id, config, FRESH)]
  }

  function Unregistered(p: Pool, id: DriverId): Pool {
    var i := IndexOf(p, id);
    if i == |p| then p else p[..i] + p[i + 1..]
  }

  function Succeeded(p: Pool, id: DriverId, now: real): Pool {
    var i := IndexOf(p, id);
    if i == |p| then p else p[i := p[i].(driver := AfterSuccess(p[i].driver, now))]
  }

  function Failed(p: Pool, id: DriverId, failedAt: real, openedAt: real): Pool {
    var i := IndexOf(p, id);
    if i == |p| then p
    else p[i := p[i].(driver := AfterFailure(p[i].driver, p[i].config.failureThreshold, failedAt, openedAt))]
  }

  /** The pool after one operation; what a selection returns and logs is `Outcome` and `Logged`. */
  function Step(p: Pool, op: Op): Pool {
    match op
    case Register(id, config) => Registered(p, id, config)
    case Unregister(id) => Unregistered(p, id)
    case Success(id, now) => Succeeded(p, id, now)
    case Failure(id, failedAt, openedAt) => Failed(p, id, failedAt, openedAt)
    case Select(now, _) => Awakened(p, now)
    case Clear => []
  }

  lemma {:induction false} StepIsWellFormed(p: Pool, op: Op)
    requires WellFormed(p)
    ensures WellFormed(Step(p, op))
  {
  }

  /** No operation takes the pool past its capacity. */
  lemma {:induction false} StepKeepsCapacity(p: Pool, op: Op)
    ensures |Step(p, op)| <= Max(|p|, MAX_DRIVERS)
  {
    if op.Unregister? {
      assert IndexOf(p, op.id) <= |p|;
    }
  }

  /** What an operation does to one registered driver that it does not remove. */
  function Local(d: Driver, config: Config, id: DriverId, op: Op): Driver {
    match op
    case Success(r, now) => if r == id then AfterSuccess(d, now) else d
    case Failure(r, failedAt, openedAt) => if r == id then
      AfterFailure(d, config.failureThreshold, failedAt, openedAt) else d
    case Select(now, _) => AfterClock(d, config.recoveryTimeout, now)
    case _ => d
  }

  predicate Removes(op: Op, id: DriverId) { op == Unregister(id) || op == Clear }

  /** Every operation but a removal leaves each entry at its place. */
  lemma {:induction false} StepInPlace(p: Pool, op: Op, i: nat)
    requires WellFormed(p) && i < |p| && !op.Unregister? && op != Clear
    ensures i < |Step(p, op)| && Step(p, op)[i] == p[i].(driver := Local(p[i].driver, p[i].config, p[i].id, op))
  {
    GetIs(p, i);
  }

  /** Drivers are isolated: an operation changes a driver by its own record, settings and the clock alone. */
  lemma {:induction false} StepIsLocal(p: Pool, op: Op, id: DriverId)
    requires WellFormed(p) && Has(p, id)
    ensures var after := Step(p, op);
      if Removes(op, id) then !Has(after, id)
      else
        && Has(after, id)
        && Get(after, id).config == Get(p, id).config
        && Get(after, id).driver == Local(Get(p, id).driver, Get(p, id).config, id, op)
  {
    if op.Unregister? {
      UnregisterKeepsOthers(p, op.id, id);
    } else if op != Clear {
      StepIsWellFormed(p, op);
      StepInPlace(p, op, IndexOf(p, id));
      GetIs(Step(p, op), IndexOf(p, id));
    }
  }

  lemma {:induction false} UnregisterKeepsOthers(p: Pool, gone: DriverId, id: DriverId)
    requires WellFormed(p) && Has(p, id)
    ensures var after := Unregistered(p, gone);
      if gone == id then !Has(after, id) else Has(after, id) && Get(after, id) == Get(p, id)
  {
    var i, k, after := IndexOf(p, id), IndexOf(p, gone), Unregistered(p, gone);
    if gone != id {
      StepIsWellFormed(p, Unregister(gone));
      GetIs(after, if i < k then i else i - 1);
    }
  }

  // ---------------------------------------------------------------------------------------------
  // Selection
  // ---------------------------------------------------------------------------------------------

  /** `a` is the entry of `among` that the selection order puts before every other entry. */
  ghost predicate IsFirst(p: Pool, among: set<Slot>, a: Slot) {
    a in among && forall b :: b in among && b != a ==> Ahead(p, a, b)
  }

  ghost function Eligible(p: Pool): set<Slot> { set s | s in p && IsAvailable(s.driver) }

  lemma {:induction false} FirstAvailable(p: Pool, slots: seq<Slot>)
    requires SortedAhead(p, slots)
    ensures var r := AvailableAmong(slots);
      r != [] ==> forall y :: y in r && y != r[0] ==> Ahead(p, r[0], y)
  {
    if slots != [] {
      FirstAvailable(p, slots[1..]);
      AvailableMembers(slots[1..]);
      if IsAvailable(slots[0].driver) {
        forall y | y in slots && y != slots[0] ensures Ahead(p, slots[0], y) {
          var k :| 0 <= k < |slots| && slots[k] == y;
        }
      }
    }
  }

  /**
   A selection returns nothing exactly when no driver is available once the clock has been applied;
   otherwise it returns the available driver of least priority, the earliest registered among equals,
   flags a fallback exactly when that is not the least of all registered drivers, and the list of
   available drivers taken straight afterwards starts with it.
   */
  lemma {:induction false} SelectionIsStableMinimum(p: Pool, op: Op)
    requires WellFormed(p) && op.Select?
    ensures var after := Step(p, op);
      match Outcome(p, op)
      case None => Eligible(after) == {} && AvailableDrivers(after) == []
      case Some(d) =>
        && Has(after, d.selected) && IsFirst(after, Eligible(after), Get(after, d.selected))
        && Has(after, d.primary) && IsFirst(after, Elements(after), Get(after, d.primary))
        && d.fallbackUsed == (d.selected != d.primary)
        && d.fallbackUsed == !IsAvailable(Get(after, d.primary).driver)
        && AvailableDrivers(after) != [] && AvailableDrivers(after)[0] == d.selected
  {
    StepIsWellFormed(p, op);
    ChoiceIsStableMinimum(Step(p, op), op.stampedAt);
  }

  lemma {:induction false} GetMember(p: Pool, s: Slot)
    requires WellFormed(p) && s in p
    ensures Has(p, s.id) && Get(p, s.id) == s
  {
    var i :| 0 <= i < |p| && p[i] == s;
    GetIs(p, i);
  }

  lemma {:induction false} ChoiceIsStableMinimum(p: Pool, stampedAt: real)
    requires WellFormed(p)
    ensures match Choice(p, stampedAt)
      case None => Eligible(p) == {} && AvailableDrivers(p) == []
      case Some(d) =>
        && Has(p, d.selected) && IsFirst(p, Eligible(p), Get(p, d.selected))
        && Has(p, d.primary) && IsFirst(p, Elements(p), Get(p, d.primary))
        && d.fallbackUsed == (d.selected != d.primary)
        && d.fallbackUsed == !IsAvailable(Get(p, d.primary).driver)
        && AvailableDrivers(p) != [] && AvailableDrivers(p)[0] == d.selected
  {
    var sorted := SortByPriority(p);
    var available := AvailableAmong(sorted);
    SortKeepsElements(p);
    SortIsStable(p);
    AvailableMembers(sorted);
    FirstAvailable(p, sorted);
    if available != [] {
      GetMember(p, available[0]);
      GetMember(p, sorted[0]);
      forall b | b in p && b != sorted[0] ensures Ahead(p, sorted[0], b) {
        var k :| 0 <= k < |sorted| && sorted[k] == b;
      }
    }
  }

  /**
   The reason reads back as the state of the chosen driver: half-open ones are named first, a
   fallback names the driver it replaces.
   */
  lemma {:induction false} ReasonTellsStatus(p: Pool, stampedAt: real)
    requires WellFormed(p) && Choice(p, stampedAt).Some?
    ensures var d := Choice(p, stampedAt).value;
      Has(p, d.selected)
      && var status := Get(p, d.selected).driver.status;
      && (d.reason == CircuitHalfOpen <==> status == Recovering)
      && (d.reason == PrimaryHealthy <==> status == Healthy && !d.fallbackUsed)
      && (d.reason == PrimaryDegraded <==> status == Degraded && !d.fallbackUsed)
      && (d.reason == FailoverFrom(d.primary) <==> status != Recovering && d.fallbackUsed)
      && d.timestamp == stampedAt
  {
    var sorted := SortByPriority(p);
    var available := AvailableAmong(sorted);
    SortKeepsElements(p);
    AvailableMembers(sorted);
    assert available[0] in available;
    GetMember(p, available[0]);
  }

  /** Sorting keeps the ids apart: no entry after the first carries the first one's id. */
  lemma {:induction false} SortedIdsDiffer(p: Pool)
    requires WellFormed(p)
    ensures var sorted := SortByPriority(p);
      forall k :: 0 < k < |sorted| ==> sorted[k].id != sorted[0].id
  {
    var sorted := SortByPriority(p);
    SortKeepsElements(p);
    SortIsStable(p);
    forall k | 0 < k < |sorted| ensures sorted[k].id != sorted[0].id {
      assert Ahead(p, sorted[0], sorted[k]);
      assert sorted[k] in p && sorted[0] in p;
      GetMember(p, sorted[k]);
      GetMember(p, sorted[0]);
    }
  }

  /** Two first entries of one set coincide, so the selection order leaves no choice. */
  lemma {:induction false} FirstIsUnique(p: Pool, among: set<Slot>, a: Slot, b: Slot)
    requires WellFormed(p)
    requires IsFirst(p, among, a) && IsFirst(p, among, b)
    ensures a == b
  {
  }
}
