/**
 The concurrency limiter (core/api/concurrency_limiter.py) as interleaved steps. One call of the
 limiter is one use of a permit, from waiting on a semaphore to the last statistics update. Each
 semaphore operation and each block under the statistics lock is one atomic step; any number of
 calls interleave in any order. A sequence of events is a run: an event that is not enabled where it
 stands does nothing.
 */
module LimiterSpec {
  import opened Common

  datatype Path = Async | Sync

  datatype Stats = Stats(acquisitions: nat, releases: nat, timeouts: nat, maxObserved: int, currentActive: int)

  const NO_STATS := Stats(0, 0, 0, 0, 0)

  /** The limiter's own fields. */
  datatype Shared = Shared(maxConcurrent: nat, asyncPermits: nat, syncPermits: nat, active: int, stats: Stats)

  function Fresh(maxConcurrent: nat): Shared { Shared(maxConcurrent, maxConcurrent, maxConcurrent, 0, NO_STATS) }

  // ---------------------------------------------------------------------------------------------
  // The atomic blocks
  // ---------------------------------------------------------------------------------------------

  function Permits(sh: Shared, path: Path): nat { if path == Async then sh.asyncPermits else sh.syncPermits }

  function WithPermits(sh: Shared, path: Path, n: nat): Shared {
    if path == Async then sh.(asyncPermits := n) else sh.(syncPermits := n)
  }

  function TakePermit(sh: Shared, path: Path): Shared
    requires Permits(sh, path) > 0
  {
    WithPermits(sh, path, Permits(sh, path) - 1)
  }

  function GivePermit(sh: Shared, path: Path): Shared { WithPermits(sh, path, Permits(sh, path) + 1) }

  function CountAcquired(sh: Shared): Shared {
    var active, st := sh.active + 1, sh.stats;
    sh.(active := active,
        stats := st.(acquisitions := st.acquisitions + 1, maxObserved := Max(st.maxObserved, active),
          currentActive := active))
  }

  function CountReleased(sh: Shared): Shared {
    var active, st := sh.active - 1, sh.stats;
    sh.(active := active, stats := st.(releases := st.releases + 1, currentActive := active))
  }

  function CountTimeout(sh: Shared): Shared {
    sh.(stats := sh.stats.(timeouts := sh.stats.timeouts + 1))
  }

  // ---------------------------------------------------------------------------------------------
  // Calls and events
  // ---------------------------------------------------------------------------------------------

  /**
   Where a call stands: waiting on the semaphore; holding a permit that the statistics do not show
   yet; running its body; past its body, still holding the permit; past the release, still in the
   count; or timed out with the timeout still to be counted.
   */
  datatype Stage = Waiting | Permitted | Running | Finishing | Released | TimedOut

  datatype Call = Call(path: Path, stage: Stage)

  type CallId = nat

  datatype State = State(shared: Shared, calls: map<CallId, Call>)

  datatype Event =
    | Begin(id: CallId, path: Path)
    | Acquire(id: CallId)
    | Expire(id: CallId)
    | Cancel(id: CallId)
    | NoteTimeout(id: CallId)
    | NoteAcquired(id: CallId)
    | EndBody(id: CallId, raised: bool)
    | Release(id: CallId)
    | NoteReleased(id: CallId)
    | StrayRelease(id: CallId, path: Path)
    | ResetStats

  predicate AtStage(s: State, id: CallId, stage: Stage) { id in s.calls && s.calls[id].stage == stage }

  function Moved(s: State, id: CallId, stage: Stage, sh: Shared): State
    requires id in s.calls
  {
    State(sh, s.calls[id := s.calls[id].(stage := stage)])
  }

  /**
   One event. Only an asynchronous wait can be cancelled. A stray release is `release_sync` (or
   `release_async`) called by someone who holds no permit; nothing in the source prevents it.
   */
  function Apply(s: State, e: Event): State {
    var sh := s.shared;
    match e
    case Begin(id, path) => if id in s.calls then s else s.(calls := s.calls[id := Call(path, Waiting)])
    case Acquire(id) =>
      if AtStage(s, id, Waiting) && Permits(sh, s.calls[id].path) > 0
      then Moved(s, id, Permitted, TakePermit(sh, s.calls[id].path)) else s
    case Expire(id) => if AtStage(s, id, Waiting) then Moved(s, id, TimedOut, sh) else s
    case Cancel(id) => if AtStage(s, id, Waiting) && s.calls[id].path == Async then s.(calls := s.calls - {id}) else s
    case NoteTimeout(id) => if AtStage(s, id, TimedOut) then State(CountTimeout(sh), s.calls - {id}) else s
    case NoteAcquired(id) => if AtStage(s, id, Permitted) then Moved(s, id, Running, CountAcquired(sh)) else s
    case EndBody(id, _) => if AtStage(s, id, Running) then Moved(s, id, Finishing, sh) else s
    case Release(id) =>
      if AtStage(s, id, Finishing) then Moved(s, id, Released, GivePermit(sh, s.calls[id].path)) else s
    case NoteReleased(id) => if AtStage(s, id, Released) then State(CountReleased(sh), s.calls - {id}) else s
    case StrayRelease(id, path) =>
      if id in s.calls then s else State(GivePermit(sh, path), s.calls[id := Call(path, Released)])
    case ResetStats => s.(shared := sh.(stats := NO_STATS))
  }

  ghost function After(maxConcurrent: nat, events: seq<Event>): State {
    if events == [] then State(Fresh(maxConcurrent), map[])
    else Apply(After(maxConcurrent, events[..|events| - 1]), events[|events| - 1])
  }

  // ---------------------------------------------------------------------------------------------
  // Counting calls
  // ---------------------------------------------------------------------------------------------

  ghost function Select(calls: map<CallId, Call>, which: set<Call>): set<CallId> {
    set id | id in calls && calls[id] in which
  }

  /** How many calls are in one of the given situations. */
  ghost function Count(calls: map<CallId, Call>, which: set<Call>): nat { |Select(calls, which)| }

  lemma {:induction false} CountEmpty(which: set<Call>)
    ensures Count(map[], which) == 0
  {
    assert Select(map[], which) == {};
  }

  lemma {:induction false} CountUpdate(calls: map<CallId, Call>, id: CallId, call: Call, which: set<Call>)
    ensures Count(calls[id := call], which)
            == Count(calls, which) - (if id in calls && calls[id] in which then 1 else 0)
              + (if call in which then 1 else 0)
  {
    var before, after := Select(calls, which), Select(calls[id := call], which);
    if call in which {
      assert after == (before - {id}) + {id};
    } else {
      assert after == before - {id};
    }
  }

  lemma {:induction false} CountRemove(calls: map<CallId, Call>, id: CallId, which: set<Call>)
    ensures Count(calls - {id}, which) == Count(calls, which) - if id in calls && calls[id] in which then 1 else 0
  {
    assert Select(calls - {id}, which) == Select(calls, which) - {id};
  }

  lemma {:induction false} CountSubset(calls: map<CallId, Call>, fewer: set<Call>, more: set<Call>)
    requires fewer <= more
    ensures Count(calls, fewer) <= Count(calls, more)
  {
    var a, b := Select(calls, fewer), Select(calls, more);
    assert b == a + (b - a);
  }

  /** The calls that hold a permit of a semaphore. */
  ghost function Holding(path: Path): set<Call> { {Call(path, Permitted), Call(path, Running), Call(path, Finishing)} }

  ghost function Bodies(path: Path): set<Call> { {Call(path, Running)} }

  /** The calls that the active count includes. */
  ghost function Counted(): set<Call> {
    {Call(Async, Running), Call(Async, Finishing), Call(Async, Released),
     Call(Sync, Running), Call(Sync, Finishing), Call(Sync, Released)}
  }

  // ---------------------------------------------------------------------------------------------
  // No permit is lost or invented
  // ---------------------------------------------------------------------------------------------

  /** How many stray releases a run performs on a semaphore. */
  ghost function Strays(maxConcurrent: nat, events: seq<Event>, path: Path): nat {
    if events == [] then 0
    else
      var earlier, e := events[..|events| - 1], events[|events| - 1];
      Strays(maxConcurrent, earlier, path)
      + if e.StrayRelease? && e.path == path && e.id !in After(maxConcurrent, earlier).calls then 1 else 0
  }

  /** The situation that an event puts its call in, when it moves it. */
  ghost function Target(s: State, e: Event): Call
    requires e != ResetStats
  {
    var path := if e.Begin? || e.StrayRelease? then e.path else if e.id in s.calls then s.calls[e.id].path else Async;
    var stage :=
      match e
      case Begin(_, _) => Waiting
      case Acquire(_) => Permitted
      case Expire(_) => TimedOut
      case NoteAcquired(_) => Running
      case EndBody(_, _) => Finishing
      case _ => Released;
    Call(path, stage)
  }

  ghost function Outstanding(s: State, path: Path): int { Permits(s.shared, path) + Count(s.calls, Holding(path)) }

  lemma {:induction false} ApplyKeepsPermits(s: State, e: Event, path: Path)
    ensures Outstanding(Apply(s, e), path)
            == Outstanding(s, path) + if e.StrayRelease? && e.path == path && e.id !in s.calls then 1 else 0
    ensures Apply(s, e).shared.maxConcurrent == s.shared.maxConcurrent
  {
    if e != ResetStats {
      CountRemove(s.calls, e.id, Holding(path));
      CountUpdate(s.calls, e.id, Target(s, e), Holding(path));
    }
  }

  /**
   Under every interleaving of acquires, timeouts, cancellations, bodies that return or raise, and
   releases, the free permits of a semaphore plus the calls that hold one equal the configured maximum
   plus the stray releases of that semaphore.
   */
  lemma {:induction false} PermitsAreConserved(maxConcurrent: nat, events: seq<Event>, path: Path)
    ensures Outstanding(After(maxConcurrent, events), path) == maxConcurrent + Strays(maxConcurrent, events, path)
  {
    if events == [] {
      CountEmpty(Holding(path));
    } else {
      var earlier := events[..|events| - 1];
      PermitsAreConserved(maxConcurrent, earlier, path);
      ApplyKeepsPermits(After(maxConcurrent, earlier), events[|events| - 1], path);
    }
  }

  /** So at most `maxConcurrent` bodies run at once on a path that saw no stray release. */
  lemma {:induction false} BodiesAreLimited(maxConcurrent: nat, events: seq<Event>, path: Path)
    requires Strays(maxConcurrent, events, path) == 0
    ensures Count(After(maxConcurrent, events).calls, Bodies(path)) <= maxConcurrent
  {
    PermitsAreConserved(maxConcurrent, events, path);
    CountSubset(After(maxConcurrent, events).calls, Bodies(path), Holding(path));
  }

  // ---------------------------------------------------------------------------------------------
  // The counters
  // ---------------------------------------------------------------------------------------------

  ghost function AllStrays(maxConcurrent: nat, events: seq<Event>): nat {
    Strays(maxConcurrent, events, Async) + Strays(maxConcurrent, events, Sync)
  }

  lemma {:induction false} InCounted(call: Call)
    ensures call in Counted() <==> call.stage == Running || call.stage == Finishing || call.stage == Released
  {
    match call.path
    case Async =>
    case Sync =>
  }

  lemma {:induction false} ApplyKeepsCount(s: State, e: Event)
    ensures Apply(s, e).shared.active - Count(Apply(s, e).calls, Counted())
            == s.shared.active - Count(s.calls, Counted()) - if e.StrayRelease? && e.id !in s.calls then 1 else 0
  {
    if e != ResetStats {
      CountRemove(s.calls, e.id, Counted());
      CountUpdate(s.calls, e.id, Target(s, e), Counted());
      InCounted(Target(s, e));
      if e.id in s.calls {
        InCounted(s.calls[e.id]);
      }
    }
  }

  /**
   The active count is the number of calls between their two statistics updates, less the stray
   releases. It is not the number of permits in use: a release gives the permit back first.
   */
  lemma {:induction false} ActiveCountsCalls(maxConcurrent: nat, events: seq<Event>)
    ensures var s := After(maxConcurrent, events);
      s.shared.active == Count(s.calls, Counted()) - AllStrays(maxConcurrent, events)
  {
    if events == [] {
      CountEmpty(Counted());
    } else {
      var earlier := events[..|events| - 1];
      ActiveCountsCalls(maxConcurrent, earlier);
      ApplyKeepsCount(After(maxConcurrent, earlier), events[|events| - 1]);
    }
  }

  /** The property `available_permits`: one count stands for both semaphores. */
  function AvailablePermits(sh: Shared): int { sh.maxConcurrent - sh.active }

  /** The `available_permits` that `get_stats` reports, from the count in the statistics. */
  function ReportedPermits(sh: Shared): int { sh.maxConcurrent - sh.stats.currentActive }

  /**
   The property is negative unless the calls in the count are at most the maximum and the stray
   releases together; and it is the number of free permits of a semaphore exactly when the calls in the
   count, less all stray releases, match the holders of that semaphore, less its own.
   */
  lemma {:induction false} AvailablePermitsIff(maxConcurrent: nat, events: seq<Event>, path: Path)
    ensures var s := After(maxConcurrent, events);
      var available := AvailablePermits(s.shared);
      && (available >= 0 <==> Count(s.calls, Counted()) <= maxConcurrent + AllStrays(maxConcurrent, events))
      && (available == Permits(s.shared, path) <==>
          Count(s.calls, Counted()) - AllStrays(maxConcurrent, events)
          == Count(s.calls, Holding(path)) - Strays(maxConcurrent, events, path))
  {
    MaximumIsFixed(maxConcurrent, events);
    ActiveCountsCalls(maxConcurrent, events);
    PermitsAreConserved(maxConcurrent, events, path);
  }

  /** An event that changes the active count: a recorded acquisition or a recorded release. */
  predicate MovesCount(s: State, e: Event) {
    (e.NoteAcquired? && AtStage(s, e.id, Permitted)) || (e.NoteReleased? && AtStage(s, e.id, Released))
  }

  /** The count that the statistics show: the active count at its latest change, or zero after a reset. */
  ghost function Shown(maxConcurrent: nat, events: seq<Event>): int {
    if events == [] then 0
    else
      var earlier, e := events[..|events| - 1], events[|events| - 1];
      if e == ResetStats then 0
      else if MovesCount(After(maxConcurrent, earlier), e) then After(maxConcurrent, events).shared.active
      else Shown(maxConcurrent, earlier)
  }

  lemma {:induction false} StatisticsShow(maxConcurrent: nat, events: seq<Event>)
    ensures After(maxConcurrent, events).shared.stats.currentActive == Shown(maxConcurrent, events)
  {
    if events != [] {
      StatisticsShow(maxConcurrent, events[..|events| - 1]);
    }
  }

  /**
   What `get_stats` reports as available is negative unless the count it shows is at most the maximum;
   and it is the number of free permits of a semaphore exactly when the count it shows matches the
   holders of that semaphore, less its stray releases.
   */
  lemma {:induction false} ReportedPermitsIff(maxConcurrent: nat, events: seq<Event>, path: Path)
    ensures var s := After(maxConcurrent, events);
      var reported, shown := ReportedPermits(s.shared), Shown(maxConcurrent, events);
      && (reported >= 0 <==> shown <= maxConcurrent)
      && (reported == Permits(s.shared, path) <==>
          shown == Count(s.calls, Holding(path)) - Strays(maxConcurrent, events, path))
  {
    MaximumIsFixed(maxConcurrent, events);
    StatisticsShow(maxConcurrent, events);
    PermitsAreConserved(maxConcurrent, events, path);
  }

  /**
   A reset in mid-call: with a single permit taken, the property reports none available, as is true of
   the semaphore, while the statistics report one.
   */
  lemma {:induction false} ResetHidesHolder()
    ensures var sh := After(1, Enter(0, Sync) + [ResetStats]).shared;
      sh.syncPermits == 0 && AvailablePermits(sh) == 0 && ReportedPermits(sh) == 1
  {
    AfterEnter(1, [], 0, Sync);
    assert [] + Enter(0, Sync) == Enter(0, Sync);
    AfterStep(1, Enter(0, Sync), ResetStats);
  }

  lemma {:induction false} MaximumIsFixed(maxConcurrent: nat, events: seq<Event>)
    ensures After(maxConcurrent, events).shared.maxConcurrent == maxConcurrent
  {
    if events != [] {
      var earlier := events[..|events| - 1];
      MaximumIsFixed(maxConcurrent, earlier);
      ApplyKeepsPermits(After(maxConcurrent, earlier), events[|events| - 1], Async);
    }
  }

  /** The two paths together run at most twice the maximum; each semaphore allows its own. */
  lemma {:induction false} BothPathsAreLimited(maxConcurrent: nat, events: seq<Event>)
    requires AllStrays(maxConcurrent, events) == 0
    ensures Count(After(maxConcurrent, events).calls, Bodies(Async))
      + Count(After(maxConcurrent, events).calls, Bodies(Sync))
            <= 2 * maxConcurrent
  {
    BodiesAreLimited(maxConcurrent, events, Async);
    BodiesAreLimited(maxConcurrent, events, Sync);
  }

  /** The active count when the statistics were last reset, or zero. */
  ghost function ActiveAtReset(maxConcurrent: nat, events: seq<Event>): int {
    if events == [] then 0
    else if events[|events| - 1].ResetStats? then After(maxConcurrent, events[..|events| - 1]).shared.active
    else ActiveAtReset(maxConcurrent, events[..|events| - 1])
  }

  /** The largest active count seen since the statistics were last reset, as of each recorded acquisition. */
  ghost function PeakActive(maxConcurrent: nat, events: seq<Event>): int {
    if events == [] || events[|events| - 1].ResetStats? then 0
    else
      var earlier := PeakActive(maxConcurrent, events[..|events| - 1]);
      if RecordsAcquisition(maxConcurrent, events) then Max(earlier, After(maxConcurrent, events).shared.active)
      else earlier
  }

  ghost predicate RecordsAcquisition(maxConcurrent: nat, events: seq<Event>)
    requires events != []
  {
    var e := events[|events| - 1];
    e.NoteAcquired? && AtStage(After(maxConcurrent, events[..|events| - 1]), e.id, Permitted)
  }

  /**
   Acquisitions less releases is the change in the active count since the last reset, and the maximum
   is the peak since then.
   */
  lemma {:induction false} StatisticsBalance(maxConcurrent: nat, events: seq<Event>)
    ensures var sh := After(maxConcurrent, events).shared;
      && sh.stats.acquisitions - sh.stats.releases == sh.active - ActiveAtReset(maxConcurrent, events)
      && sh.stats.maxObserved == PeakActive(maxConcurrent, events)
  {
    if events != [] {
      StatisticsBalance(maxConcurrent, events[..|events| - 1]);
    }
  }

  /** The acquisitions recorded since the statistics were last reset. */
  ghost function AcquiredSinceReset(maxConcurrent: nat, events: seq<Event>): nat {
    if events == [] || events[|events| - 1] == ResetStats then 0
    else
      AcquiredSinceReset(maxConcurrent, events[..|events| - 1])
      + if RecordsAcquisition(maxConcurrent, events) then 1 else 0
  }

  /** The releases recorded since then. */
  ghost function ReleasedSinceReset(maxConcurrent: nat, events: seq<Event>): nat {
    if events == [] || events[|events| - 1] == ResetStats then 0
    else
      var earlier, e := events[..|events| - 1], events[|events| - 1];
      ReleasedSinceReset(maxConcurrent, earlier)
      + if e.NoteReleased? && AtStage(After(maxConcurrent, earlier), e.id, Released) then 1 else 0
  }

  /** Each recorded acquisition and each recorded release since the last reset is counted once. */
  lemma {:induction false} UsesAreCounted(maxConcurrent: nat, events: seq<Event>)
    ensures var st := After(maxConcurrent, events).shared.stats;
      && st.acquisitions == AcquiredSinceReset(maxConcurrent, events)
      && st.releases == ReleasedSinceReset(maxConcurrent, events)
  {
    if events != [] {
      UsesAreCounted(maxConcurrent, events[..|events| - 1]);
    }
  }

  ghost predicate NoReset(events: seq<Event>) { forall i :: 0 <= i < |events| ==> events[i] != ResetStats }

  /** The largest active count over every state of a run. */
  ghost function RunningMaximum(maxConcurrent: nat, events: seq<Event>): int {
    if events == [] then 0
    else Max(RunningMaximum(maxConcurrent, events[..|events| - 1]), After(maxConcurrent, events).shared.active)
  }

  /**
   Without resets: acquisitions less releases is the active count, the statistics show it, and the
   observed maximum is its running maximum.
   */
  lemma {:induction false} StatisticsWithoutReset(maxConcurrent: nat, events: seq<Event>)
    requires NoReset(events)
    ensures var sh := After(maxConcurrent, events).shared;
      && sh.stats.acquisitions - sh.stats.releases == sh.active == sh.stats.currentActive
      && sh.stats.maxObserved == RunningMaximum(maxConcurrent, events)
      && sh.active <= sh.stats.maxObserved
  {
    if events != [] {
      var earlier := events[..|events| - 1];
      StatisticsWithoutReset(maxConcurrent, earlier);
    }
  }

  /** The waits that expired since the statistics were last reset, and the timeouts then still to be recorded. */
  ghost function TimeoutsDue(maxConcurrent: nat, events: seq<Event>): nat {
    if events == [] then 0
    else
      var earlier, e := events[..|events| - 1], events[|events| - 1];
      if e == ResetStats then Count(After(maxConcurrent, earlier).calls, Uncounted())
      else
        TimeoutsDue(maxConcurrent, earlier)
        + if e.Expire? && AtStage(After(maxConcurrent, earlier), e.id, Waiting) then 1 else 0
  }

  ghost function Uncounted(): set<Call> { {Call(Async, TimedOut), Call(Sync, TimedOut)} }

  lemma {:induction false} InUncounted(call: Call)
    ensures call in Uncounted() <==> call.stage == TimedOut
  {
    match call.path
    case Async =>
    case Sync =>
  }

  lemma {:induction false} ApplyKeepsTimeouts(s: State, e: Event)
    requires e != ResetStats
    ensures Apply(s, e).shared.stats.timeouts + Count(Apply(s, e).calls, Uncounted())
            == s.shared.stats.timeouts + Count(s.calls, Uncounted())
               + if e.Expire? && AtStage(s, e.id, Waiting) then 1 else 0
  {
    CountRemove(s.calls, e.id, Uncounted());
    CountUpdate(s.calls, e.id, Target(s, e), Uncounted());
    InUncounted(Target(s, e));
    if e.id in s.calls {
      InUncounted(s.calls[e.id]);
    }
  }

  /**
   Every expired wait is counted exactly once: since the last reset, the timeouts recorded plus those
   still to be recorded are those that fell due.
   */
  lemma {:induction false} TimeoutsAreCounted(maxConcurrent: nat, events: seq<Event>)
    ensures var s := After(maxConcurrent, events);
      s.shared.stats.timeouts + Count(s.calls, Uncounted()) == TimeoutsDue(maxConcurrent, events)
  {
    if events == [] {
      CountEmpty(Uncounted());
    } else if events[|events| - 1] != ResetStats {
      var earlier := events[..|events| - 1];
      TimeoutsAreCounted(maxConcurrent, earlier);
      ApplyKeepsTimeouts(After(maxConcurrent, earlier), events[|events| - 1]);
    }
  }

  /** When every call has gone and nothing was released astray, all permits are back and the count is zero. */
  lemma {:induction false} QuietMeansIdle(maxConcurrent: nat, events: seq<Event>)
    requires After(maxConcurrent, events).calls == map[] && AllStrays(maxConcurrent, events) == 0
    ensures var sh := After(maxConcurrent, events).shared;
      sh.asyncPermits == maxConcurrent && sh.syncPermits == maxConcurrent && sh.active == 0
  {
    PermitsAreConserved(maxConcurrent, events, Async);
    PermitsAreConserved(maxConcurrent, events, Sync);
    ActiveCountsCalls(maxConcurrent, events);
    CountEmpty(Counted());
    CountEmpty(Holding(Async));
    CountEmpty(Holding(Sync));
  }

  // ---------------------------------------------------------------------------------------------
  // Where the guarantees end
  // ---------------------------------------------------------------------------------------------

  /** One call's events up to its running body. */
  ghost function Enter(id: CallId, path: Path): seq<Event> { [Begin(id, path), Acquire(id), NoteAcquired(id)] }

  ghost function Leave(id: CallId): seq<Event> { [EndBody(id, true), Release(id)] }

  lemma {:induction false} AfterStep(maxConcurrent: nat, events: seq<Event>, e: Event)
    ensures After(maxConcurrent, events + [e]) == Apply(After(maxConcurrent, events), e)
  {
    assert (events + [e])[..|events|] == events;
  }

  lemma {:induction false} AfterEnter(maxConcurrent: nat, events: seq<Event>, id: CallId, path: Path)
    requires id !in After(maxConcurrent, events).calls && Permits(After(maxConcurrent, events).shared, path) > 0
    ensures var s, t := After(maxConcurrent, events), After(maxConcurrent, events + Enter(id, path));
      && t.calls == s.calls[id := Call(path, Running)]
      && t.shared == CountAcquired(TakePermit(s.shared, path))
  {
    var e1, e2, e3 := Begin(id, path), Acquire(id), NoteAcquired(id);
    AfterStep(maxConcurrent, events, e1);
    AfterStep(maxConcurrent, events + [e1], e2);
    AfterStep(maxConcurrent, events + [e1] + [e2], e3);
    assert events + Enter(id, path) == events + [e1] + [e2] + [e3];
  }

  lemma {:induction false} AfterLeave(maxConcurrent: nat, events: seq<Event>, id: CallId)
    requires AtStage(After(maxConcurrent, events), id, Running)
    ensures var s, t := After(maxConcurrent, events), After(maxConcurrent, events + Leave(id));
      && t.calls == s.calls[id := s.calls[id].(stage := Released)]
      && t.shared == GivePermit(s.shared, s.calls[id].path)
  {
    AfterStep(maxConcurrent, events, EndBody(id, true));
    AfterStep(maxConcurrent, events + [EndBody(id, true)], Release(id));
    assert events + Leave(id) == events + [EndBody(id, true)] + [Release(id)];
  }

  ghost predicate NoStrayRelease(events: seq<Event>) { forall i :: 0 <= i < |events| ==> !events[i].StrayRelease? }

  lemma {:induction false} NoStraysCounted(maxConcurrent: nat, events: seq<Event>)
    requires NoStrayRelease(events)
    ensures AllStrays(maxConcurrent, events) == 0
  {
    if events != [] {
      NoStraysCounted(maxConcurrent, events[..|events| - 1]);
    }
  }

  /** The first `k` calls of a full house: the asynchronous permits are used up first, then the synchronous ones. */
  ghost function FullHouse(maxConcurrent: nat, k: nat): seq<Event> {
    if k == 0 then [] else FullHouse(maxConcurrent, k - 1) + Enter(k, if k <= maxConcurrent then Async else Sync)
  }

  /** `k` calls run their bodies, the asynchronous ones first. */
  ghost predicate Houses(s: State, maxConcurrent: nat, k: nat) {
    && s.shared.active == k
    && Permits(s.shared, Async) == Max(0, maxConcurrent - k)
    && Permits(s.shared, Sync) == Min(maxConcurrent, 2 * maxConcurrent - k)
    && Count(s.calls, Bodies(Async)) == Min(k, maxConcurrent)
    && Count(s.calls, Bodies(Sync)) == Max(0, k - maxConcurrent)
    && forall id :: id in s.calls ==> id <= k
  }

  lemma {:induction false} HouseOneMore(s: State, t: State, maxConcurrent: nat, k: nat)
    requires k < 2 * maxConcurrent && Houses(s, maxConcurrent, k)
    requires var path := if k < maxConcurrent then Async else Sync;
      && t.calls == s.calls[k + 1 := Call(path, Running)]
      && t.shared == CountAcquired(TakePermit(s.shared, path))
    ensures Houses(t, maxConcurrent, k + 1)
  {
    var path := if k < maxConcurrent then Async else Sync;
    CountUpdate(s.calls, k + 1, Call(path, Running), Bodies(Async));
    CountUpdate(s.calls, k + 1, Call(path, Running), Bodies(Sync));
  }

  lemma {:induction false} FullHouseRuns(maxConcurrent: nat, k: nat)
    requires k <= 2 * maxConcurrent
    ensures Houses(After(maxConcurrent, FullHouse(maxConcurrent, k)), maxConcurrent, k)
  {
    if k == 0 {
      CountEmpty(Bodies(Async));
      CountEmpty(Bodies(Sync));
    } else {
      var events := FullHouse(maxConcurrent, k - 1);
      FullHouseRuns(maxConcurrent, k - 1);
      AfterEnter(maxConcurrent, events, k, if k <= maxConcurrent then Async else Sync);
      HouseOneMore(After(maxConcurrent, events), After(maxConcurrent, FullHouse(maxConcurrent, k)),
        maxConcurrent, k - 1);
    }
  }

  lemma {:induction false} FullHouseHasNoStray(maxConcurrent: nat, k: nat)
    ensures NoStrayRelease(FullHouse(maxConcurrent, k))
  {
    if k > 0 {
      FullHouseHasNoStray(maxConcurrent, k - 1);
    }
  }

  /**
   The bound on both paths is reached without a stray release or a lingering call: twice the maximum
   are running their bodies, and the reported available permits are the maximum below zero.
   */
  lemma {:induction false} FullHouseReportsNegative(maxConcurrent: nat)
    ensures var events := FullHouse(maxConcurrent, 2 * maxConcurrent);
      var s := After(maxConcurrent, events);
      && AllStrays(maxConcurrent, events) == 0
      && Count(s.calls, Bodies(Async)) + Count(s.calls, Bodies(Sync)) == 2 * maxConcurrent
      && AvailablePermits(s.shared) == 0 - maxConcurrent
  {
    FullHouseRuns(maxConcurrent, 2 * maxConcurrent);
    FullHouseHasNoStray(maxConcurrent, 2 * maxConcurrent);
    NoStraysCounted(maxConcurrent, FullHouse(maxConcurrent, 2 * maxConcurrent));
    MaximumIsFixed(maxConcurrent, FullHouse(maxConcurrent, 2 * maxConcurrent));
  }

  /** `n` calls that have each released their permit and not yet left the count. */
  ghost function Lingering(n: nat): seq<Event> {
    if n == 0 then [] else Lingering(n - 1) + Enter(n, Sync) + Leave(n)
  }

  ghost predicate AllLinger(s: State, maxConcurrent: nat, n: nat) {
    && s.shared == Fresh(maxConcurrent).(active := n, stats := Stats(n, 0, 0, n, n))
    && (forall id :: id in s.calls <==> 1 <= id <= n)
  }

  lemma {:induction false} OneMoreLingers(s: State, t: State, maxConcurrent: nat, n: nat)
    requires maxConcurrent >= 1 && AllLinger(s, maxConcurrent, n)
    requires t.shared == GivePermit(CountAcquired(TakePermit(s.shared, Sync)), Sync)
    requires t.calls == s.calls[n + 1 := Call(Sync, Released)]
    ensures AllLinger(t, maxConcurrent, n + 1)
  {
  }

  lemma {:induction false} AfterPassing(maxConcurrent: nat, events: seq<Event>, id: CallId)
    requires id !in After(maxConcurrent, events).calls && Permits(After(maxConcurrent, events).shared, Sync) > 0
    ensures var s, t := After(maxConcurrent, events), After(maxConcurrent, events + Enter(id, Sync) + Leave(id));
      && t.shared == GivePermit(CountAcquired(TakePermit(s.shared, Sync)), Sync)
      && t.calls == s.calls[id := Call(Sync, Released)]
  {
    AfterEnter(maxConcurrent, events, id, Sync);
    AfterLeave(maxConcurrent, events + Enter(id, Sync), id);
  }

  /**
   The active count is not bounded by the number of permits: with one permit or more, and no stray
   release, it reaches any number, so the reported available permits can be negative.
   */
  lemma {:induction false} ActiveCountOutrunsPermits(maxConcurrent: nat, n: nat)
    requires maxConcurrent >= 1
    ensures AllStrays(maxConcurrent, Lingering(n)) == 0
    ensures AllLinger(After(maxConcurrent, Lingering(n)), maxConcurrent, n)
  {
    LingeringHasNoStray(n);
    NoStraysCounted(maxConcurrent, Lingering(n));
    LingeringRuns(maxConcurrent, n);
  }

  lemma {:induction false} LingeringRuns(maxConcurrent: nat, n: nat)
    requires maxConcurrent >= 1
    ensures AllLinger(After(maxConcurrent, Lingering(n)), maxConcurrent, n)
  {
    if n > 0 {
      LingeringRuns(maxConcurrent, n - 1);
      AfterPassing(maxConcurrent, Lingering(n - 1), n);
      OneMoreLingers(After(maxConcurrent, Lingering(n - 1)), After(maxConcurrent, Lingering(n)), maxConcurrent, n - 1);
    }
  }

  lemma {:induction false} LingeringHasNoStray(n: nat)
    ensures NoStrayRelease(Lingering(n))
  {
    if n > 0 {
      LingeringHasNoStray(n - 1);
    }
  }

  /** One stray release and then `n` calls that enter and stay. */
  ghost function Crowd(n: nat, path: Path): seq<Event> {
    if n == 0 then [StrayRelease(0, path)] else Crowd(n - 1, path) + Enter(n, path)
  }

  /**
   The limit is lost with a single stray release: afterwards one body more than the maximum can run,
   whatever the maximum is.
   */
  lemma {:induction false} StrayReleaseBreaksLimit(maxConcurrent: nat, path: Path)
    ensures Count(After(maxConcurrent, Crowd(maxConcurrent + 1, path)).calls, Bodies(path)) == maxConcurrent + 1
  {
    CrowdRuns(maxConcurrent, maxConcurrent + 1, path);
  }

  lemma {:induction false} CrowdRuns(maxConcurrent: nat, n: nat, path: Path)
    requires n <= maxConcurrent + 1
    ensures var s := After(maxConcurrent, Crowd(n, path));
      && Count(s.calls, Bodies(path)) == n
      && Permits(s.shared, path) == maxConcurrent + 1 - n
      && forall id :: id in s.calls ==> id <= n
  {
    if n == 0 {
      assert Crowd(0, path) == [] + [StrayRelease(0, path)];
      AfterStep(maxConcurrent, [], StrayRelease(0, path));
      CountEmpty(Bodies(path));
      CountUpdate(map[], 0, Call(path, Released), Bodies(path));
    } else {
      CrowdRuns(maxConcurrent, n - 1, path);
      AfterEnter(maxConcurrent, Crowd(n - 1, path), n, path);
      CountUpdate(After(maxConcurrent, Crowd(n - 1, path)).calls, n, Call(path, Running), Bodies(path));
    }
  }
}
