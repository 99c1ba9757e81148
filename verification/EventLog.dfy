/**
 The append-only transition log (core/fsm/event_sourcing.py), with its file as a sequence of lines:
 replay, crash-recovery verdicts, and trimming. A line either parses to an event or is skipped.
 Whether the file system cooperates is a parameter.
 */
module EventLog {
  import opened Common

  datatype SessionId = SessionId(text: string)

  datatype Event = Event(
    fromState: string, toState: string, trigger: string, session: Option<SessionId>, timestamp: string, id: string)

  datatype Line = Record(event: Event) | Unreadable

  // ---------------------------------------------------------------------------------------------
  // Replay and recovery
  // ---------------------------------------------------------------------------------------------

  /** `None` asks for every event; a session asks for the events that carry exactly that id. */
  predicate Wanted(e: Event, session: Option<SessionId>) { session.None? || e.session == session }

  function Replay(lines: seq<Line>, session: Option<SessionId>): seq<Event> {
    if lines == [] then []
    else
      var earlier, line := Replay(lines[..|lines| - 1], session), lines[|lines| - 1];
      if line.Record? && Wanted(line.event, session) then earlier + [line.event] else earlier
  }

  function LastState(events: seq<Event>): Option<string> {
    if events == [] then None else Some(events[|events| - 1].toState)
  }

  /** The group that recovery puts an event in: a missing or empty session id counts as "unknown". */
  function GroupOf(e: Event): SessionId {
    if e.session.None? || e.session.value == SessionId("") then SessionId("unknown") else e.session.value
  }

  function EventsOf(events: seq<Event>, group: SessionId): seq<Event> {
    if events == [] then []
    else
      var earlier, last := EventsOf(events[..|events| - 1], group), events[|events| - 1];
      if GroupOf(last) == group then earlier + [last] else earlier
  }

  /** The groups in the order in which they first occur. */
  function Groups(events: seq<Event>): seq<SessionId> {
    if events == [] then []
    else
      var earlier, g := Groups(events[..|events| - 1]), GroupOf(events[|events| - 1]);
      if g in earlier then earlier else earlier + [g]
  }

  predicate IsTerminal(state: string) {
    state == "IDLE" || state == "WAITING_USER" || state == "ERROR" || state == "PANIC"
  }

  datatype Interruption = Interruption(
    session: SessionId, lastState: string, lastTrigger: string, lastTimestamp: string, eventCount: nat)

  predicate IsInterrupted(events: seq<Event>, group: SessionId) {
    var own := EventsOf(events, group);
    own != [] && !IsTerminal(own[|own| - 1].toState)
  }

  function Report(events: seq<Event>, group: SessionId): Interruption
    requires EventsOf(events, group) != []
  {
    var own := EventsOf(events, group);
    var last := own[|own| - 1];
    Interruption(group, last.toState, last.trigger, last.timestamp, |own|)
  }

  /** The interrupted ones among the given groups. */
  function Interrupted(events: seq<Event>, groups: seq<SessionId>): seq<Interruption> {
    if groups == [] then []
    else
      var earlier, g := Interrupted(events, groups[..|groups| - 1]), groups[|groups| - 1];
      if IsInterrupted(events, g) then earlier + [Report(events, g)] else earlier
  }

  // ---------------------------------------------------------------------------------------------
  // Groups partition the log
  // ---------------------------------------------------------------------------------------------

  ghost function SumOfCounts(events: seq<Event>, groups: seq<SessionId>): nat {
    if groups == [] then 0 else SumOfCounts(events, groups[..|groups| - 1]) + |EventsOf(events, groups[|groups| - 1])|
  }

  lemma {:induction false} GroupsAreDistinct(events: seq<Event>)
    ensures NoDup(Groups(events))
    ensures forall g :: g in Groups(events) <==> EventsOf(events, g) != []
  {
    if events != [] {
      GroupsAreDistinct(events[..|events| - 1]);
    }
  }

  lemma {:induction false} AppendAddsOne(events: seq<Event>, e: Event, groups: seq<SessionId>)
    requires NoDup(groups)
    ensures SumOfCounts(events + [e], groups) == SumOfCounts(events, groups) + if GroupOf(e) in groups then 1 else 0
  {
    assert (events + [e])[..|events|] == events;
    if groups != [] {
      AppendAddsOne(events, e, groups[..|groups| - 1]);
      assert groups == groups[..|groups| - 1] + [groups[|groups| - 1]];
    }
  }

  /** The per-session event counts, over all groups, sum to the length of the log. */
  lemma {:induction false} CountsSumToLength(events: seq<Event>)
    ensures SumOfCounts(events, Groups(events)) == |events|
  {
    if events != [] {
      var earlier, e := events[..|events| - 1], events[|events| - 1];
      CountsSumToLength(earlier);
      GroupsAreDistinct(earlier);
      assert events == earlier + [e];
      AppendAddsOne(earlier, e, Groups(earlier));
      if GroupOf(e) !in Groups(earlier) {
        assert EventsOf(earlier, GroupOf(e)) == [];
        assert (Groups(earlier) + [GroupOf(e)])[..|Groups(earlier)|] == Groups(earlier);
      }
    }
  }

  // ---------------------------------------------------------------------------------------------
  // What replay and recovery report
  // ---------------------------------------------------------------------------------------------

  /**
   Replay for a session returns the events of the readable lines that carry exactly its id, and without a
   session all of them, each line once and in file order; `at` says which line each event comes from.
   */
  lemma {:induction false} ReplayReadsLines(lines: seq<Line>, session: Option<SessionId>) returns (at: seq<nat>)
    ensures |at| == |Replay(lines, session)|
    ensures forall j :: 0 <= j < |at| ==> at[j] < |lines| && lines[at[j]] == Record(Replay(lines, session)[j])
    ensures forall j, k :: 0 <= j < k < |at| ==> at[j] < at[k]
    ensures forall i: nat :: i in at <==>
      i < |lines| && lines[i].Record? && (session == None || lines[i].event.session == session)
  {
    at := [];
    if lines != [] {
      var n := |lines| - 1;
      at := ReplayReadsLines(lines[..n], session);
      if lines[n].Record? && Wanted(lines[n].event, session) {
        at := at + [n];
      }
    }
  }

  /** Line `i` holds the latest event that a query for the session sees. */
  ghost predicate IsLatestLine(lines: seq<Line>, session: Option<SessionId>, i: nat) {
    && i < |lines| && lines[i].Record? && (session == None || lines[i].event.session == session)
    && forall j :: i < j < |lines| && lines[j].Record? ==> session != None && lines[j].event.session != session
  }

  /**
   The last state of a session, or of the log, is where its latest readable event leads; there is
   none without such an event.
   */
  lemma {:induction false} LastStateIs(lines: seq<Line>, session: Option<SessionId>, state: Option<string>)
    ensures LastState(Replay(lines, session)) == state <==>
      if state == None then forall i: nat :: !IsLatestLine(lines, session, i)
      else exists i: nat :: IsLatestLine(lines, session, i) && Some(lines[i].event.toState) == state
  {
    var at := ReplayReadsLines(lines, session);
    if at == [] {
      forall i: nat ensures !IsLatestLine(lines, session, i) {
        assert i !in at;
      }
    } else {
      var i := at[|at| - 1];
      assert i in at;
      forall j | i < j < |lines| && lines[j].Record? ensures session != None && lines[j].event.session != session {
        assert j !in at;
      }
      assert IsLatestLine(lines, session, i);
      forall k: nat | IsLatestLine(lines, session, k) ensures k == i {
        LatestLineIsUnique(lines, session, i, k);
      }
    }
  }

  lemma {:induction false} LatestLineIsUnique(lines: seq<Line>, session: Option<SessionId>, i: nat, j: nat)
    requires IsLatestLine(lines, session, i) && IsLatestLine(lines, session, j)
    ensures i == j
  {
  }

  /** The session that recovery counts an event to. */
  ghost predicate CountsTo(e: Event, group: SessionId) {
    match e.session
    case None => group.text == "unknown"
    case Some(id) => if id.text == "" then group.text == "unknown" else group == id
  }

  /** Event `i` is the latest of its session. */
  ghost predicate IsLatestOf(events: seq<Event>, group: SessionId, i: nat) {
    && i < |events| && CountsTo(events[i], group)
    && forall j :: i < j < |events| ==> !CountsTo(events[j], group)
  }

  /** What the crash-recovery report says of a session. */
  ghost predicate TellsOf(events: seq<Event>, r: Interruption, i: nat) {
    && IsLatestOf(events, r.session, i)
    && events[i].toState != "IDLE" && events[i].toState != "WAITING_USER"
    && events[i].toState != "ERROR" && events[i].toState != "PANIC"
    && r.lastState == events[i].toState && r.lastTrigger == events[i].trigger && r.lastTimestamp == events[i].timestamp
    && r.eventCount == |Positions(events, (e: Event) => CountsTo(e, r.session))|
  }

  lemma {:induction false} GroupCounts(events: seq<Event>, group: SessionId)
    ensures |EventsOf(events, group)| == |Positions(events, (e: Event) => CountsTo(e, group))|
  {
    if events != [] {
      GroupCounts(events[..|events| - 1], group);
      PositionsGrow(events, (e: Event) => CountsTo(e, group));
      var e := events[|events| - 1];
      assert GroupOf(e) == group <==> CountsTo(e, group);
    }
  }

  lemma {:induction false} GroupEnds(events: seq<Event>, group: SessionId, i: nat)
    requires IsLatestOf(events, group, i)
    ensures var own := EventsOf(events, group); own != [] && own[|own| - 1] == events[i]
  {
    var n := |events| - 1;
    assert GroupOf(events[n]) == group <==> CountsTo(events[n], group);
    if i < n {
      assert !CountsTo(events[n], group);
      assert IsLatestOf(events[..n], group, i);
      GroupEnds(events[..n], group, i);
    }
  }

  lemma {:induction false} GroupHasLatest(events: seq<Event>, group: SessionId) returns (i: nat)
    requires EventsOf(events, group) != []
    ensures IsLatestOf(events, group, i)
  {
    var n := |events| - 1;
    assert GroupOf(events[n]) == group <==> CountsTo(events[n], group);
    if CountsTo(events[n], group) {
      i := n;
    } else {
      i := GroupHasLatest(events[..n], group);
      assert forall j :: i < j < n ==> !CountsTo(events[..n][j], group);
    }
  }

  lemma {:induction false} LatestIsUnique(events: seq<Event>, group: SessionId, i: nat, j: nat)
    requires IsLatestOf(events, group, i) && IsLatestOf(events, group, j)
    ensures i == j
  {
  }

  lemma {:induction false} InterruptedAmong(events: seq<Event>, groups: seq<SessionId>, r: Interruption)
    ensures r in Interrupted(events, groups) <==>
      r.session in groups && IsInterrupted(events, r.session) && r == Report(events, r.session)
  {
    if groups != [] {
      InterruptedAmong(events, groups[..|groups| - 1], r);
      assert groups == groups[..|groups| - 1] + [groups[|groups| - 1]];
    }
  }

  lemma {:induction false} ReportTells(events: seq<Event>, r: Interruption, i: nat)
    requires IsLatestOf(events, r.session, i)
    ensures IsInterrupted(events, r.session) && r == Report(events, r.session) <==> TellsOf(events, r, i)
  {
    GroupEnds(events, r.session, i);
    GroupCounts(events, r.session);
  }

  /**
   The crash-recovery report, read off the log: a session is reported if and only if its latest event
   leads to none of the four resting states, and then with that event's state, trigger and timestamp
   and the number of its events. An event without a session, or with an empty one, counts to "unknown".
   */
  lemma {:induction false} InterruptedIff(events: seq<Event>, r: Interruption)
    ensures r in Interrupted(events, Groups(events)) <==> exists i: nat :: TellsOf(events, r, i)
  {
    GroupsAreDistinct(events);
    InterruptedAmong(events, Groups(events), r);
    if EventsOf(events, r.session) != [] {
      var i := GroupHasLatest(events, r.session);
      ReportTells(events, r, i);
      forall j: nat | TellsOf(events, r, j) ensures j == i {
        LatestIsUnique(events, r.session, i, j);
      }
    } else {
      forall j: nat ensures !TellsOf(events, r, j) {
        if IsLatestOf(events, r.session, j) {
          GroupEnds(events, r.session, j);
        }
      }
    }
  }

  /** The position at which a session first occurs. */
  ghost function FirstOf(events: seq<Event>, group: SessionId): nat { FirstAt(events, (e: Event) => GroupOf(e), group) }

  lemma {:induction false} GroupsInOrder(events: seq<Event>)
    ensures forall i, j :: 0 <= i < j < |Groups(events)| ==>
      FirstOf(events, Groups(events)[i]) < FirstOf(events, Groups(events)[j])
    ensures forall i :: 0 <= i < |Groups(events)| ==> FirstOf(events, Groups(events)[i]) < |events|
  {
    if events != [] {
      var n := |events| - 1;
      var earlier, g := Groups(events[..n]), GroupOf(events[n]);
      GroupsInOrder(events[..n]);
      forall i | 0 <= i < |earlier| ensures FirstOf(events, earlier[i]) == FirstOf(events[..n], earlier[i]) {
        FirstStays(events, earlier[i]);
      }
      if g !in earlier {
        GroupsAreDistinct(events[..n]);
        FirstIsNew(events);
      }
    }
  }

  lemma {:induction false} FirstStays(events: seq<Event>, group: SessionId)
    requires events != [] && FirstOf(events[..|events| - 1], group) < |events| - 1
    ensures FirstOf(events, group) == FirstOf(events[..|events| - 1], group)
  {
    var i := FirstOf(events[..|events| - 1], group);
    assert GroupOf(events[i]) == group;
    assert forall k :: 0 <= k < i ==> events[..|events| - 1][k] == events[k];
  }

  lemma {:induction false} FirstIsNew(events: seq<Event>)
    requires events != [] && EventsOf(events[..|events| - 1], GroupOf(events[|events| - 1])) == []
    ensures FirstOf(events, GroupOf(events[|events| - 1])) == |events| - 1
  {
    var g := GroupOf(events[|events| - 1]);
    var k := FirstOf(events, g);
    if k < |events| - 1 {
      assert GroupOf(events[k]) == g;
      AtPositionIsListed(events[..|events| - 1], k);
    }
  }

  lemma {:induction false} AtPositionIsListed(events: seq<Event>, k: nat)
    requires k < |events|
    ensures EventsOf(events, GroupOf(events[k])) != []
  {
    if k < |events| - 1 {
      AtPositionIsListed(events[..|events| - 1], k);
    }
  }

  lemma {:induction false} ReportedIsListed(events: seq<Event>, groups: seq<SessionId>, i: nat)
    requires i < |Interrupted(events, groups)|
    ensures Interrupted(events, groups)[i].session in groups
  {
    assert Interrupted(events, groups)[i] in Interrupted(events, groups);
    InterruptedAmong(events, groups, Interrupted(events, groups)[i]);
  }

  ghost predicate FirstOccurBefore(events: seq<Event>, a: SessionId, b: SessionId) {
    FirstOf(events, a) < FirstOf(events, b)
  }

  /** Each session is reported once, in the order in which the sessions first occur in the log. */
  lemma {:induction false} InterruptedOnce(events: seq<Event>, groups: seq<SessionId>, i: nat, j: nat)
    requires forall m, n :: 0 <= m < n < |groups| ==> FirstOccurBefore(events, groups[m], groups[n])
    requires i < j < |Interrupted(events, groups)|
    ensures FirstOccurBefore(events, Interrupted(events, groups)[i].session, Interrupted(events, groups)[j].session)
  {
    var n := |groups| - 1;
    var earlier := Interrupted(events, groups[..n]);
    if j < |earlier| {
      InterruptedOnce(events, groups[..n], i, j);
    } else {
      ReportedIsListed(events, groups[..n], i);
      var k :| 0 <= k < n && groups[..n][k] == earlier[i].session;
      assert FirstOccurBefore(events, groups[k], groups[n]);
    }
  }

  /** The whole report is in that order. */
  lemma {:induction false} ReportIsInOrder(events: seq<Event>, i: nat, j: nat)
    requires i < j < |Interrupted(events, Groups(events))|
    ensures var report := Interrupted(events, Groups(events));
      report[i].session != report[j].session && FirstOf(events, report[i].session) < FirstOf(events, report[j].session)
  {
    GroupsInOrder(events);
    InterruptedOnce(events, Groups(events), i, j);
  }

  // ---------------------------------------------------------------------------------------------
  // Trimming
  // ---------------------------------------------------------------------------------------------

  /** What became of the rewrite: done, not opened, or torn after some of the lines. */
  datatype Rewrite = Done | NotOpened | Torn(written: nat)

  /** A missing or zero request falls back to the store's own maximum. */
  function Keep(keepLast: Option<int>, maxEvents: int): int {
    if keepLast.None? || keepLast.value == 0 then maxEvents else keepLast.value
  }

  /** The slice `events[-keep:]`, for any sign of `keep`. */
  function TailSlice(events: seq<Event>, keep: int): seq<Event> {
    if keep > 0 then LastN(events, keep) else events[Min(|events|, -keep)..]
  }

  function LinesOf(events: seq<Event>): seq<Line> {
    seq(|events|, i requires 0 <= i < |events| => Record(events[i]))
  }

  /** The file after a trim. */
  function Trimmed(lines: seq<Line>, keep: int, io: Rewrite): seq<Line> {
    var events := Replay(lines, None);
    if |events| <= keep || io.NotOpened? then lines
    else
      var kept := LinesOf(TailSlice(events, keep));
      if io.Torn? then kept[..Min(|kept|, io.written)] else kept
  }

  /** What a trim returns: the number it says it removed. */
  function TrimCount(lines: seq<Line>, keep: int, io: Rewrite): int {
    var n := |Replay(lines, None)|;
    if n <= keep || !io.Done? then 0 else n - keep
  }

  /**
   The number a request asks to keep: its own when it gives one that is not zero, and the store's
   maximum otherwise.
   */
  ghost predicate AsksFor(keepLast: Option<int>, maxEvents: int, keep: int) {
    match keepLast
    case None => keep == maxEvents
    case Some(n) => if n == 0 then keep == maxEvents else keep == n
  }

  /**
   A completed trim whose request asks for a positive number leaves that many of the latest events,
   or all of a shorter log.
   */
  lemma {:induction false} RequestIsKept(lines: seq<Line>, keepLast: Option<int>, maxEvents: int, keep: int)
    requires AsksFor(keepLast, maxEvents, keep) && keep >= 1
    ensures var events := Replay(lines, None);
      Replay(Trimmed(lines, Keep(keepLast, maxEvents), Done), None) == events[Max(0, |events| - keep)..]
  {
    TrimKeepsTail(lines, keep);
  }

  lemma {:induction false} ReplayOfLines(events: seq<Event>)
    ensures Replay(LinesOf(events), None) == events
  {
    if events != [] {
      ReplayOfLines(events[..|events| - 1]);
      assert LinesOf(events)[..|events| - 1] == LinesOf(events[..|events| - 1]);
    }
  }

  /**
   For a positive `keep`, a trim that is written leaves exactly the last `keep` events, says how many
   it removed, and changes nothing when repeated.
   */
  lemma {:induction false} TrimKeepsTail(lines: seq<Line>, keep: int)
    requires keep >= 1
    ensures var events, after := Replay(lines, None), Trimmed(lines, keep, Done);
      && Replay(after, None) == LastN(events, keep)
      && TrimCount(lines, keep, Done) == |events| - |Replay(after, None)|
      && Trimmed(after, keep, Done) == after
  {
    ReplayOfLines(LastN(Replay(lines, None), keep));
  }

  lemma {:induction false} EventsOfAppends(a: seq<Event>, b: seq<Event>, group: SessionId)
    ensures EventsOf(a + b, group) == EventsOf(a, group) + EventsOf(b, group)
  {
    if b == [] {
      assert a + b == a;
    } else {
      EventsOfAppends(a, b[..|b| - 1], group);
      assert (a + b)[..|a + b| - 1] == a + b[..|b| - 1];
    }
  }

  /** The groups of a tail end exactly as they end in the whole log. */
  lemma {:induction false} TailKeepsGroupEnds(events: seq<Event>, keep: nat, group: SessionId)
    ensures var own, kept := EventsOf(events, group), EventsOf(LastN(events, keep), group);
      |kept| <= |own| && kept == own[|own| - |kept|..]
  {
    var tail := LastN(events, keep);
    var head := events[..|events| - |tail|];
    assert events == head + tail;
    EventsOfAppends(head, tail, group);
  }

  /** A group ends the same way in both logs, up to how many of its events are there. */
  ghost predicate SameEnding(before: seq<Event>, after: seq<Event>, group: SessionId) {
    && EventsOf(before, group) != [] && EventsOf(after, group) != []
    && IsInterrupted(after, group) == IsInterrupted(before, group)
    && Report(after, group) == Report(before, group).(eventCount := |EventsOf(after, group)|)
  }

  lemma {:induction false} SameTailSameEnding(before: seq<Event>, after: seq<Event>, group: SessionId)
    requires var own, kept := EventsOf(before, group), EventsOf(after, group);
      kept != [] && |kept| <= |own| && kept == own[|own| - |kept|..]
    ensures SameEnding(before, after, group)
  {
    var own, kept := EventsOf(before, group), EventsOf(after, group);
    assert kept[|kept| - 1] == own[|own| - 1];
  }

  /**
   Trimming keeps recovery verdicts: every session group still in the log has the same last state,
   trigger and timestamp and the same interrupted-or-clean verdict as before, and so does the log as a
   whole.
   */
  lemma {:induction false} TrimKeepsVerdicts(lines: seq<Line>, keep: int, group: SessionId)
    requires keep >= 1
    ensures var before, after := Replay(lines, None), Replay(Trimmed(lines, keep, Done), None);
      && LastState(after) == LastState(before)
      && (EventsOf(after, group) != [] ==> SameEnding(before, after, group))
  {
    var before, after := Replay(lines, None), Replay(Trimmed(lines, keep, Done), None);
    TrimKeepsTail(lines, keep);
    TailKeepsGroupEnds(before, keep, group);
    if EventsOf(after, group) != [] {
      SameTailSameEnding(before, after, group);
    }
  }

  lemma {:induction false} ReplayFilters(lines: seq<Line>, session: Option<SessionId>)
    ensures Replay(lines, session) == Filter(Replay(lines, None), session)
  {
    if lines != [] {
      ReplayFilters(lines[..|lines| - 1], session);
      var line, all := lines[|lines| - 1], Replay(lines[..|lines| - 1], None);
      if line.Record? {
        assert (all + [line.event])[..|all|] == all;
      }
    }
  }

  ghost function Filter(events: seq<Event>, session: Option<SessionId>): seq<Event> {
    if events == [] then []
    else
      var earlier, last := Filter(events[..|events| - 1], session), events[|events| - 1];
      if Wanted(last, session) then earlier + [last] else earlier
  }

  lemma {:induction false} FilterAppends(a: seq<Event>, b: seq<Event>, session: Option<SessionId>)
    ensures Filter(a + b, session) == Filter(a, session) + Filter(b, session)
  {
    if b == [] {
      assert a + b == a;
    } else {
      FilterAppends(a, b[..|b| - 1], session);
      assert (a + b)[..|a + b| - 1] == a + b[..|b| - 1];
    }
  }

  lemma {:induction false} TailKeepsFilterEnds(events: seq<Event>, keep: nat, session: Option<SessionId>)
    ensures var own, kept := Filter(events, session), Filter(LastN(events, keep), session);
      |kept| <= |own| && kept == own[|own| - |kept|..]
  {
    var tail := LastN(events, keep);
    var head := events[..|events| - |tail|];
    assert events == head + tail;
    FilterAppends(head, tail, session);
  }

  /**
   `get_last_state` for any session gives the same answer after a trim, or none when the session's
   events are gone.
   */
  lemma {:induction false} TrimKeepsLastState(lines: seq<Line>, keep: int, session: Option<SessionId>)
    requires keep >= 1
    ensures var after := Trimmed(lines, keep, Done);
      || LastState(Replay(after, session)) == LastState(Replay(lines, session))
      || Replay(after, session) == []
  {
    TrimKeepsTail(lines, keep);
    ReplayFilters(lines, session);
    ReplayFilters(Trimmed(lines, keep, Done), session);
    TailKeepsFilterEnds(Replay(lines, None), keep, session);
  }

  /** The number of events a trim removes is the number it says. */
  ghost predicate TellsTruth(lines: seq<Line>, keep: int, io: Rewrite) {
    TrimCount(lines, keep, io) == |Replay(lines, None)| - |Replay(Trimmed(lines, keep, io), None)|
  }

  /**
   Whatever becomes of the rewrite, the count that a trim returns is the number of events it removed if
   and only if there was nothing to remove, the file could not be opened, the rewrite was completed with
   a positive number to keep, or it was torn when everything it had to write was already written and
   that was everything there was.
   */
  lemma {:induction false} TrimCountIsTruthful(lines: seq<Line>, keep: int, io: Rewrite)
    ensures var n := |Replay(lines, None)|;
      TellsTruth(lines, keep, io) <==>
        || n <= keep
        || io.NotOpened?
        || (io.Done? && keep >= 1)
        || (io.Torn? && (n == 0 || (keep == 0 && io.written >= n)))
  {
    var kept := TailSlice(Replay(lines, None), keep);
    match io
    case Done => ReplayOfLines(kept);
    case NotOpened =>
    case Torn(written) =>
      var m := Min(|kept|, written);
      assert LinesOf(kept)[..m] == LinesOf(kept[..m]);
      ReplayOfLines(kept[..m]);
  }

  /**
   A rewrite torn part-way reports nothing removed and has lost the latest events: the log then ends
   where the writing stopped.
   */
  lemma {:induction false} TornTrimLosesLatest(lines: seq<Line>, keep: int, written: nat)
    requires 1 <= keep < |Replay(lines, None)| && written < keep
    ensures TrimCount(lines, keep, Torn(written)) == 0 && !TellsTruth(lines, keep, Torn(written))
    ensures var events := Replay(lines, None);
      Replay(Trimmed(lines, keep, Torn(written)), None) == LastN(events, keep)[..written]
  {
    var kept := LastN(Replay(lines, None), keep);
    assert LinesOf(kept)[..written] == LinesOf(kept[..written]);
    ReplayOfLines(kept[..written]);
  }

  // ---------------------------------------------------------------------------------------------
  // The store
  // ---------------------------------------------------------------------------------------------

  class FSMEventStore {
    const maxEvents: int
    /** The lines of the events file. */
    var file: seq<Line>

    constructor (maxEvents: int)
      ensures file == [] && this.maxEvents == maxEvents
    {
      this.maxEvents := maxEvents;
      file := [];
    }

    /** A write that fails is logged and dropped. */
    method Append(e: Event, writeFails: bool)
      modifies this`file
      ensures file == if writeFails then old(file) else old(file) + [Record(e)]
      ensures !writeFails ==> Replay(file, None) == Replay(old(file), None) + [e]
      ensures !writeFails ==> LastState(Replay(file, None)) == Some(e.toState)
    {
      if !writeFails {
        file := file + [Record(e)];
        assert file[..|file| - 1] == old(file);
      }
    }

    method ReplayEvents(session: Option<SessionId>) returns (events: seq<Event>)
      ensures events == Replay(file, session)
    {
      events := [];
      for i := 0 to |file|
        invariant events == Replay(file[..i], session)
      {
        assert file[..i + 1][..i] == file[..i];
        match file[i]
        case Record(e) =>
          if session.None? || e.session == session {
            events := events + [e];
          }
        case Unreadable =>
      }
      assert file[..|file|] == file;
    }

    method GetLastState(session: Option<SessionId>) returns (state: Option<string>)
      ensures state == LastState(Replay(file, session))
    {
      var events := ReplayEvents(session);
      if |events| > 0 {
        return Some(events[|events| - 1].toState);
      }
      return None;
    }

    method GetInterruptedSessions() returns (interrupted: seq<Interruption>)
      ensures var events := Replay(file, None);
        interrupted == Interrupted(events, Groups(events))
    {
      var events := ReplayEvents(None);
      var order, sessions := GroupSessions(events);
      interrupted := CollectInterrupted(events, order, sessions);
    }

    /** The loop over the groups. */
    method CollectInterrupted(ghost events: seq<Event>, order: seq<SessionId>, sessions: map<SessionId, seq<Event>>)
      returns (interrupted: seq<Interruption>)
      requires forall k :: 0 <= k < |order| ==>
        order[k] in sessions && sessions[order[k]] == EventsOf(events, order[k]) && sessions[order[k]] != []
      ensures interrupted == Interrupted(events, order)
    {
      interrupted := [];
      for i := 0 to |order|
        invariant interrupted == Interrupted(events, order[..i])
      {
        assert order[..i + 1][..i] == order[..i];
        var sid := order[i];
        var own := sessions[sid];
        var last := own[|own| - 1];
        if !IsTerminal(last.toState) {
          interrupted := interrupted + [Interruption(sid, last.toState, last.trigger, last.timestamp, |own|)];
        }
      }
      assert order[..|order|] == order;
    }

    /** The grouping dictionary: its keys in insertion order, and its lists. */
    method GroupSessions(events: seq<Event>) returns (order: seq<SessionId>, sessions: map<SessionId, seq<Event>>)
      ensures order == Groups(events)
      ensures forall g :: g in sessions <==> g in order
      ensures forall k :: 0 <= k < |order| ==>
        order[k] in sessions && sessions[order[k]] == EventsOf(events, order[k]) && sessions[order[k]] != []
    {
      order, sessions := [], map[];
      for i := 0 to |events|
        invariant order == Groups(events[..i])
        invariant forall g :: g in sessions <==> g in order
        invariant forall g :: g in sessions ==> sessions[g] == EventsOf(events[..i], g)
      {
        var prefix, next := events[..i], events[..i + 1];
        assert next[..i] == prefix;
        GroupsAreDistinct(prefix);
        var sid := GroupOf(events[i]);
        if sid !in sessions {
          order := order + [sid];
          sessions := sessions[sid := []];
        }
        sessions := sessions[sid := sessions[sid] + [events[i]]];
      }
      assert events[..|events|] == events;
      GroupsAreDistinct(events);
      forall k | 0 <= k < |order| ensures order[k] in sessions && EventsOf(events, order[k]) != [] {
        assert order[k] in order;
      }
    }

    method Trim(keepLast: Option<int>, io: Rewrite) returns (trimmed: int)
      modifies this`file
      ensures file == Trimmed(old(file), Keep(keepLast, maxEvents), io)
      ensures trimmed == TrimCount(old(file), Keep(keepLast, maxEvents), io)
    {
      var keep := Keep(keepLast, maxEvents);
      var events := ReplayEvents(None);
      if |events| <= keep {
        return 0;
      }
      var trimmedCount := |events| - keep;
      var eventsToKeep := TailSlice(events, keep);
      match io
      case NotOpened => return 0;
      case Torn(written) =>
        WriteLines(eventsToKeep, written);
        return 0;
      case Done =>
        WriteLines(eventsToKeep, |eventsToKeep|);
        return trimmedCount;
    }

    /** Opening for writing empties the file; then the lines follow one by one, as far as the writes go. */
    method WriteLines(events: seq<Event>, written: nat)
      modifies this`file
      ensures file == LinesOf(events)[..Min(|events|, written)]
    {
      file := [];
      for i := 0 to Min(|events|, written)
        invariant file == LinesOf(events)[..i]
      {
        file := file + [Record(events[i])];
      }
    }
  }
}
