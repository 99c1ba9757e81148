/**
 Context-window truncation (core/drivers/context_manager.py). Messages are objects, compared by
 identity, that never change once built. Token counts are any integers, as the source accepts;
 the claims that need them non-negative say so.
 */
module ContextWindow {
  import opened Common

  const CHARS_PER_TOKEN := 4

  function EstimateTokens(text: string): int {
    if text == "" then 0 else Max(1, |text| / CHARS_PER_TOKEN)
  }

  class ContextMessage {
    const role: string
    const content: string
    const tokenCount: int
    const pinned: bool

    /** A count of zero asks for an estimate. */
    constructor (role: string, content: string, tokenCount: int, pinned: bool)
      ensures this.role == role && this.content == content && this.pinned == pinned
      ensures this.tokenCount == if tokenCount == 0 then EstimateTokens(content) else tokenCount
    {
      this.role, this.content, this.pinned := role, content, pinned;
      this.tokenCount := if tokenCount == 0 then EstimateTokens(content) else tokenCount;
    }
  }

  type History = seq<ContextMessage>

  // ---------------------------------------------------------------------------------------------
  // What truncation computes
  // ---------------------------------------------------------------------------------------------

  function Total(ms: History): int {
    if ms == [] then 0 else ms[0].tokenCount + Total(ms[1..])
  }

  function PinnedOf(ms: History): History {
    if ms == [] then [] else (if ms[0].pinned then [ms[0]] else []) + PinnedOf(ms[1..])
  }

  function UnpinnedOf(ms: History): History {
    if ms == [] then [] else (if ms[0].pinned then [] else [ms[0]]) + UnpinnedOf(ms[1..])
  }

  /** How many of the latest messages the backward greedy loop takes before the first that does not fit. */
  function Greedy(us: History, room: int): (n: nat)
    ensures n <= |us|
  {
    if us == [] || us[|us| - 1].tokenCount > room then 0
    else 1 + Greedy(us[..|us| - 1], room - us[|us| - 1].tokenCount)
  }

  /** How many of the oldest unpinned messages truncation drops. */
  function Dropped(ms: History, budget: int): (d: nat)
    ensures d <= |UnpinnedOf(ms)|
  {
    var room := budget - Total(PinnedOf(ms));
    if Total(ms) <= budget then 0
    else if room <= 0 then |UnpinnedOf(ms)|
    else |UnpinnedOf(ms)| - Greedy(UnpinnedOf(ms), room)
  }

  /** The history without its `n` oldest unpinned messages. */
  function DropOldest(ms: History, n: nat): History {
    if ms == [] || n == 0 then ms
    else if ms[0].pinned then [ms[0]] + DropOldest(ms[1..], n)
    else DropOldest(ms[1..], n - 1)
  }

  /** What `get_truncated_history` returns for a budget. */
  function Truncate(ms: History, budget: int): History {
    DropOldest(ms, Dropped(ms, budget))
  }

  // ---------------------------------------------------------------------------------------------
  // Splitting and dropping
  // ---------------------------------------------------------------------------------------------

  ghost predicate IsSubsequence(xs: History, ys: History) {
    if xs == [] then true
    else if ys == [] then false
    else if xs[0] == ys[0] && IsSubsequence(xs[1..], ys[1..]) then true
    else IsSubsequence(xs, ys[1..])
  }

  lemma {:induction false} TotalSplits(ms: History)
    ensures Total(ms) == Total(PinnedOf(ms)) + Total(UnpinnedOf(ms))
    ensures |ms| == |PinnedOf(ms)| + |UnpinnedOf(ms)|
  {
    if ms != [] {
      TotalSplits(ms[1..]);
      var p, u := PinnedOf(ms[1..]), UnpinnedOf(ms[1..]);
      assert ([ms[0]] + p)[1..] == p && ([ms[0]] + u)[1..] == u;
      assert [] + p == p && [] + u == u;
    }
  }

  lemma {:induction false} TotalAppends(a: History, b: History)
    ensures Total(a + b) == Total(a) + Total(b)
  {
    if a == [] {
      assert a + b == b;
    } else {
      TotalAppends(a[1..], b);
      assert (a + b)[1..] == a[1..] + b;
    }
  }

  lemma {:induction false} SubsequenceOfSelf(xs: History)
    ensures IsSubsequence(xs, xs)
  {
    if xs != [] {
      SubsequenceOfSelf(xs[1..]);
    }
  }

  /** Dropping removes exactly the oldest unpinned messages and keeps the order of the rest. */
  lemma {:induction false} DropOldestKeepsRest(ms: History, n: nat)
    requires n <= |UnpinnedOf(ms)|
    ensures IsSubsequence(DropOldest(ms, n), ms)
    ensures PinnedOf(DropOldest(ms, n)) == PinnedOf(ms)
    ensures UnpinnedOf(DropOldest(ms, n)) == UnpinnedOf(ms)[n..]
  {
    if ms == [] || n == 0 {
      SubsequenceOfSelf(ms);
    } else if ms[0].pinned {
      DropOldestKeepsRest(ms[1..], n);
      assert DropOldest(ms, n)[1..] == DropOldest(ms[1..], n);
    } else {
      DropOldestKeepsRest(ms[1..], n - 1);
      assert UnpinnedOf(ms)[n..] == UnpinnedOf(ms[1..])[n - 1..];
    }
  }

  ghost predicate NonNegative(ms: History) {
    forall k :: 0 <= k < |ms| ==> ms[k].tokenCount >= 0
  }

  /** With non-negative counts a longer suffix never weighs less. */
  lemma {:induction false} LongerWeighsMore(us: History, i: nat, j: nat)
    requires NonNegative(us) && i <= j <= |us|
    ensures Total(us[i..]) >= Total(us[j..])
    decreases j - i
  {
    if i < j {
      LongerWeighsMore(us, i + 1, j);
      assert us[i..][1..] == us[i + 1..];
    }
  }

  // ---------------------------------------------------------------------------------------------
  // The greedy choice
  // ---------------------------------------------------------------------------------------------

  lemma {:induction false} LastWeighs(us: History, i: nat)
    requires i < |us|
    ensures Total(us[i..]) == Total(us[..|us| - 1][i..]) + us[|us| - 1].tokenCount
  {
    var init := us[..|us| - 1];
    assert us[i..] == init[i..] + [us[|us| - 1]];
    TotalAppends(init[i..], [us[|us| - 1]]);
  }

  /** What the greedy loop takes fits, and taking one message more would not. */
  lemma {:induction false} GreedyFits(us: History, room: int)
    requires room >= 0
    ensures var d := |us| - Greedy(us, room);
      Total(us[d..]) <= room && (d > 0 ==> Total(us[d - 1..]) > room)
  {
    if us != [] {
      var d := |us| - Greedy(us, room);
      if us[|us| - 1].tokenCount > room {
        assert us[d - 1..] == [us[|us| - 1]];
        assert Total([us[|us| - 1]][1..]) == 0;
      } else {
        GreedyFits(us[..|us| - 1], room - us[|us| - 1].tokenCount);
        LastWeighs(us, if d < |us| then d else |us| - 1);
        if d > 0 {
          LastWeighs(us, d - 1);
        }
      }
    }
  }

  /** Every suffix that the greedy loop goes through fits. */
  lemma {:induction false} GreedySuffixesFit(us: History, room: int, j: nat)
    requires room >= 0 && |us| - Greedy(us, room) <= j <= |us|
    ensures Total(us[j..]) <= room
  {
    if j < |us| {
      GreedySuffixesFit(us[..|us| - 1], room - us[|us| - 1].tokenCount, j);
      LastWeighs(us, j);
    }
  }

  /** A larger room never makes the greedy loop take less. */
  lemma {:induction false} GreedyIsMonotone(us: History, room1: int, room2: int)
    requires room1 <= room2
    ensures Greedy(us, room1) <= Greedy(us, room2)
  {
    if us != [] && us[|us| - 1].tokenCount <= room1 {
      GreedyIsMonotone(us[..|us| - 1], room1 - us[|us| - 1].tokenCount, room2 - us[|us| - 1].tokenCount);
    }
  }

  // ---------------------------------------------------------------------------------------------
  // Optimality
  // ---------------------------------------------------------------------------------------------

  /** The weight of a history that keeps every pinned message and the unpinned ones from position `d` on. */
  ghost function WeightFrom(ms: History, d: nat): int
    requires d <= |UnpinnedOf(ms)|
  {
    Total(PinnedOf(ms)) + Total(UnpinnedOf(ms)[d..])
  }

  lemma {:induction false} DropOldestWeighs(ms: History, d: nat)
    requires d <= |UnpinnedOf(ms)|
    ensures Total(DropOldest(ms, d)) == WeightFrom(ms, d)
    ensures |DropOldest(ms, d)| == |ms| - d
  {
    DropOldestKeepsRest(ms, d);
    TotalSplits(DropOldest(ms, d));
    TotalSplits(ms);
  }

  /**
   Below a full pinned load, the result is an order-preserving subsequence that holds every pinned
   message, its unpinned part is a suffix of the unpinned messages, it fits the budget, and one more
   message would not. This needs nothing of the token counts.
   */
  lemma {:induction false} TruncationFits(ms: History, budget: int)
    requires Total(PinnedOf(ms)) < budget
    ensures var r, d := Truncate(ms, budget), Dropped(ms, budget);
      && IsSubsequence(r, ms)
      && PinnedOf(r) == PinnedOf(ms)
      && UnpinnedOf(r) == UnpinnedOf(ms)[d..]
      && Total(r) <= budget
      && (d > 0 ==> WeightFrom(ms, d - 1) > budget)
  {
    var d := Dropped(ms, budget);
    DropOldestKeepsRest(ms, d);
    DropOldestWeighs(ms, d);
    TotalSplits(ms);
    if Total(ms) > budget {
      GreedyFits(UnpinnedOf(ms), budget - Total(PinnedOf(ms)));
    } else {
      assert UnpinnedOf(ms)[0..] == UnpinnedOf(ms);
    }
  }

  /** The suffix from `d` is the longest suffix of the unpinned messages that fits beside the pinned ones. */
  ghost predicate IsLongestFit(ms: History, budget: int, d: nat) {
    && d <= |UnpinnedOf(ms)|
    && WeightFrom(ms, d) <= budget
    && forall k :: 0 <= k < d ==> WeightFrom(ms, k) > budget
  }

  /** With no negative unpinned count, what is too heavy from one position is too heavy from every earlier one. */
  lemma {:induction false} LongerStaysOver(ms: History, budget: int, d: nat)
    requires NonNegative(UnpinnedOf(ms)) && 0 < d <= |UnpinnedOf(ms)| && WeightFrom(ms, d - 1) > budget
    ensures forall k :: 0 <= k < d ==> WeightFrom(ms, k) > budget
  {
    forall k | 0 <= k < d ensures WeightFrom(ms, k) > budget {
      LongerWeighsMore(UnpinnedOf(ms), k, d - 1);
    }
  }

  /** Whatever suffix fits, so does every shorter one. */
  ghost predicate ShorterStillFits(ms: History, budget: int) {
    forall k, j :: 0 <= k <= j <= |UnpinnedOf(ms)| && WeightFrom(ms, k) <= budget ==> WeightFrom(ms, j) <= budget
  }

  /**
   For any counts, the unpinned part kept is the longest suffix that fits if and only if the whole
   history fits, or no suffix that is too heavy has a longer one that fits.
   */
  lemma {:induction false} TruncationIsOptimalIff(ms: History, budget: int)
    requires Total(PinnedOf(ms)) < budget
    ensures IsLongestFit(ms, budget, Dropped(ms, budget)) <==> Total(ms) <= budget || ShorterStillFits(ms, budget)
  {
    var us, d := UnpinnedOf(ms), Dropped(ms, budget);
    TruncationFits(ms, budget);
    DropOldestWeighs(ms, d);
    if Total(ms) > budget {
      forall j | d <= j <= |us| ensures WeightFrom(ms, j) <= budget {
        GreedySuffixesFit(us, budget - Total(PinnedOf(ms)), j);
      }
    }
  }

  /** When no unpinned count is negative, the unpinned part kept is the longest suffix that fits. */
  lemma {:induction false} TruncationIsOptimal(ms: History, budget: int)
    requires NonNegative(UnpinnedOf(ms)) && Total(PinnedOf(ms)) < budget
    ensures IsLongestFit(ms, budget, Dropped(ms, budget))
  {
    TruncationIsOptimalIff(ms, budget);
    forall k, j | 0 <= k <= j <= |UnpinnedOf(ms)| && WeightFrom(ms, k) <= budget ensures WeightFrom(ms, j) <= budget {
      LongerWeighsMore(UnpinnedOf(ms), k, j);
    }
  }

  /** A negative count can make a longer suffix fit after the greedy loop has given up. */
  lemma {:induction false} NegativeCountDefeatsGreedy(a: ContextMessage, b: ContextMessage, c: ContextMessage)
    requires !a.pinned && !b.pinned && !c.pinned
    requires a.tokenCount == 10 && b.tokenCount == -5 && c.tokenCount == 6
    ensures var ms := [a, b, c]; Truncate(ms, 4) == [] && IsLongestFit(ms, 4, 1)
  {
    var ms := [a, b, c];
    UnpinnedFirst(a, [b, c]);
    UnpinnedFirst(b, [c]);
    UnpinnedFirst(c, []);
    assert [a] + [b, c] == ms && [b] + [c] == [b, c] && [c] + [] == [c];
    assert ms[0..] == ms && ms[1..] == [b, c];
    assert Greedy(ms, 4) == 0 && Dropped(ms, 4) == 3;
    DropAllKeepsPinned(ms);
  }

  lemma {:induction false} UnpinnedFirst(m: ContextMessage, rest: History)
    requires !m.pinned
    ensures var ms := [m] + rest;
      && UnpinnedOf(ms) == [m] + UnpinnedOf(rest) && PinnedOf(ms) == PinnedOf(rest)
      && Total(ms) == m.tokenCount + Total(rest)
  {
    assert ([m] + rest)[1..] == rest;
  }

  /**
   With the pinned messages at or over the budget, an over-full history gives only them; over the
   budget, nothing that keeps them fits.
   */
  lemma {:induction false} PinnedOverload(ms: History, budget: int)
    requires Total(PinnedOf(ms)) >= budget && Total(ms) > budget
    ensures Truncate(ms, budget) == PinnedOf(ms)
    ensures NonNegative(UnpinnedOf(ms)) && Total(PinnedOf(ms)) > budget ==> forall d :: !IsLongestFit(ms, budget, d)
  {
    DropAllKeepsPinned(ms);
    if NonNegative(UnpinnedOf(ms)) && Total(PinnedOf(ms)) > budget {
      forall d: nat | d <= |UnpinnedOf(ms)| ensures WeightFrom(ms, d) > budget {
        LongerWeighsMore(UnpinnedOf(ms), d, |UnpinnedOf(ms)|);
      }
    }
  }

  /** The result fits the budget exactly when the whole history does or its pinned messages do, whatever the counts. */
  lemma {:induction false} ResultFitsIff(ms: History, budget: int)
    ensures Total(Truncate(ms, budget)) <= budget <==> Total(ms) <= budget || Total(PinnedOf(ms)) <= budget
  {
    if Total(PinnedOf(ms)) < budget {
      TruncationFits(ms, budget);
    } else if Total(ms) > budget {
      PinnedOverload(ms, budget);
    }
  }

  /** One pinned message over the budget comes back, and does not fit. */
  lemma {:induction false} OverfullPinnedHistory(m: ContextMessage)
    requires m.pinned && m.tokenCount == 5
    ensures Truncate([m], 4) == [m] && Total([m]) > 4
  {
    assert [m][1..] == [];
    PinnedOverload([m], 4);
  }

  lemma {:induction false} DropAllKeepsPinned(ms: History)
    ensures DropOldest(ms, |UnpinnedOf(ms)|) == PinnedOf(ms)
  {
    if ms != [] {
      DropAllKeepsPinned(ms[1..]);
      if UnpinnedOf(ms) == [] {
        TotalSplits(ms[1..]);
      }
    }
  }

  /**
   The boundary: when the pinned messages exactly fill the budget, truncation drops every unpinned
   message, and that is the longest fit if and only if the latest unpinned message is not free.
   */
  lemma {:induction false} FullPinnedLoadDropsFreeMessages(ms: History, budget: int)
    requires NonNegative(UnpinnedOf(ms)) && Total(PinnedOf(ms)) == budget && Total(ms) > budget
    ensures UnpinnedOf(ms) != []
    ensures IsLongestFit(ms, budget, Dropped(ms, budget)) <==> UnpinnedOf(ms)[|UnpinnedOf(ms)| - 1].tokenCount > 0
  {
    var us := UnpinnedOf(ms);
    TotalSplits(ms);
    var n := |us|;
    assert us[n..] == [] && us[n - 1..] == [us[n - 1]];
    assert Total(us[n - 1..]) == us[n - 1].tokenCount + Total([us[n - 1]][1..]);
    if us[n - 1].tokenCount > 0 {
      LongerStaysOver(ms, budget, n);
    } else {
      assert WeightFrom(ms, n - 1) <= budget;
    }
  }

  // ---------------------------------------------------------------------------------------------
  // Monotonicity and agreement with `can_fit`
  // ---------------------------------------------------------------------------------------------

  lemma {:induction false} DroppingLessKeepsMore(ms: History, n: nat, m: nat, x: ContextMessage)
    requires m <= n && x in DropOldest(ms, n)
    ensures x in DropOldest(ms, m)
  {
    if ms == [] || m == 0 {
      if n > 0 && ms != [] {
        if ms[0].pinned {
          if x != ms[0] {
            DroppingLessKeepsMore(ms[1..], n, 0, x);
          }
        } else {
          DroppingLessKeepsMore(ms[1..], n - 1, 0, x);
        }
      }
    } else if ms[0].pinned {
      if x != ms[0] {
        DroppingLessKeepsMore(ms[1..], n, m, x);
      }
    } else {
      DroppingLessKeepsMore(ms[1..], n - 1, m - 1, x);
    }
  }

  /** A smaller reserve leaves a larger budget, and never drops a message that the larger reserve kept. */
  lemma {:induction false} TruncationIsMonotone(
    ms: History, maxTokens: int, reserve1: int, reserve2: int, x: ContextMessage)
    requires reserve1 <= reserve2
    ensures x in Truncate(ms, maxTokens - reserve2) ==> x in Truncate(ms, maxTokens - reserve1)
    ensures Dropped(ms, maxTokens - reserve1) <= Dropped(ms, maxTokens - reserve2)
  {
    var pinned := Total(PinnedOf(ms));
    GreedyIsMonotone(UnpinnedOf(ms), maxTokens - reserve2 - pinned, maxTokens - reserve1 - pinned);
    if x in Truncate(ms, maxTokens - reserve2) {
      DroppingLessKeepsMore(ms, Dropped(ms, maxTokens - reserve2), Dropped(ms, maxTokens - reserve1), x);
    }
  }

  /** Everything comes back exactly when it fits or nothing may be dropped. */
  lemma {:induction false} EverythingReturnsIff(ms: History, budget: int)
    ensures Truncate(ms, budget) == ms <==> Total(ms) <= budget || UnpinnedOf(ms) == []
  {
    var us, d := UnpinnedOf(ms), Dropped(ms, budget);
    DropOldestWeighs(ms, d);
    if Total(ms) > budget && us != [] {
      TotalSplits(ms);
      var room := budget - Total(PinnedOf(ms));
      if room > 0 {
        GreedyFits(us, room);
        assert us[0..] == us;
      }
    }
  }

  function Remaining(ms: History, maxTokens: int): int { Max(0, maxTokens - Total(ms)) }

  function EffectiveRemaining(ms: History, maxTokens: int, reserve: int): int {
    Max(0, Remaining(ms, maxTokens) - reserve)
  }

  function CanFit(ms: History, maxTokens: int, reserve: int, tokens: int): bool {
    tokens <= EffectiveRemaining(ms, maxTokens, reserve)
  }

  /**
   What fits: nothing at all always does, and a positive count exactly when the unused part of the
   window, less the reserve, has room for it.
   */
  lemma {:induction false} CanFitIff(ms: History, maxTokens: int, reserve: int, tokens: int)
    ensures CanFit(ms, maxTokens, reserve, tokens) <==>
      tokens <= 0 || tokens + reserve <= (if maxTokens > Total(ms) then maxTokens - Total(ms) else 0)
  {
  }

  /** An estimate is zero for no text, and otherwise a quarter of its characters, rounded down, but at least one. */
  lemma {:induction false} EstimateIsQuarter(text: string)
    ensures var n := EstimateTokens(text);
      if |text| == 0 then n == 0 else if |text| < 4 then n == 1 else 4 * n <= |text| < 4 * n + 4
  {
  }

  /**
   When `can_fit(t)` holds for `t > 0`, adding a message of `t` tokens leaves the whole history in
   place if and only if the history was within the window, or the reserve is so negative that it makes
   up for the overrun, or nothing may be dropped. A non-negative reserve therefore always suffices.
   */
  lemma {:induction false} CanFitMeansNothingIsDropped(ms: History, maxTokens: int, reserve: int, m: ContextMessage)
    requires m.tokenCount > 0
    requires CanFit(ms, maxTokens, reserve, m.tokenCount)
    ensures Truncate(ms + [m], maxTokens - reserve) == ms + [m]
            <==> Total(ms) <= maxTokens || Total(ms) + m.tokenCount <= maxTokens - reserve || UnpinnedOf(ms + [m]) == []
    ensures reserve >= 0 ==> Truncate(ms + [m], maxTokens - reserve) == ms + [m]
  {
    TotalAppends(ms, [m]);
    assert [m][1..] == [];
    assert Total([m]) == m.tokenCount;
    EverythingReturnsIff(ms + [m], maxTokens - reserve);
  }

  // ---------------------------------------------------------------------------------------------
  // The merge by identity
  // ---------------------------------------------------------------------------------------------

  /** The messages of a list that belong to either of two sets of objects. */
  function Merge(ms: History, pinned: set<ContextMessage>, kept: set<ContextMessage>): History {
    if ms == [] then []
    else Merge(ms[..|ms| - 1], pinned, kept)
         + (if ms[|ms| - 1] in pinned || ms[|ms| - 1] in kept then [ms[|ms| - 1]] else [])
  }

  lemma {:induction false} MergeFront(ms: History, pinned: set<ContextMessage>, kept: set<ContextMessage>)
    requires ms != []
    ensures Merge(ms, pinned, kept) == (if ms[0] in pinned || ms[0] in kept then [ms[0]] else [])
      + Merge(ms[1..], pinned, kept)
  {
    if |ms| > 1 {
      MergeFront(ms[..|ms| - 1], pinned, kept);
      assert ms[1..][..|ms| - 2] == ms[..|ms| - 1][1..];
    } else {
      assert ms[..0] == [] && ms[1..] == [];
    }
  }

  lemma {:induction false} UnpinnedMembers(ms: History)
    ensures forall m :: m in UnpinnedOf(ms) <==> m in ms && !m.pinned
    ensures forall m :: m in PinnedOf(ms) <==> m in ms && m.pinned
  {
    if ms != [] {
      UnpinnedMembers(ms[1..]);
    }
  }

  /** Which messages a merge takes, position by position. */
  ghost predicate SelectsFrom(ms: History, n: nat, pinned: set<ContextMessage>, kept: set<ContextMessage>)
    requires n <= |UnpinnedOf(ms)|
  {
    forall i :: 0 <= i < |ms| ==>
      if ms[i].pinned then ms[i] in pinned
      else ms[i] !in pinned && (ms[i] in kept <==> ms[i] in UnpinnedOf(ms)[n..])
  }

  lemma {:induction false} SelectsFromRest(ms: History, n: nat, pinned: set<ContextMessage>, kept: set<ContextMessage>)
    requires NoDup(ms) && ms != [] && n <= |UnpinnedOf(ms)| && SelectsFrom(ms, n, pinned, kept)
    ensures var m := if ms[0].pinned || n == 0 then n else n - 1;
      m <= |UnpinnedOf(ms[1..])| && SelectsFrom(ms[1..], m, pinned, kept)
    ensures !ms[0].pinned && n > 0 ==> ms[0] !in pinned && ms[0] !in kept
    ensures ms[0].pinned ==> ms[0] in pinned
    ensures !ms[0].pinned && n == 0 ==> ms[0] in kept
  {
    var us, rest := UnpinnedOf(ms), UnpinnedOf(ms[1..]);
    assert forall i :: 0 <= i < |ms[1..]| ==> ms[1..][i] == ms[i + 1];
    if ms[0].pinned {
      assert us == rest;
    } else if n > 0 {
      assert us == [ms[0]] + rest && us[n..] == rest[n - 1..];
      UnpinnedMembers(ms[1..]);
      assert forall k :: 0 <= k < |rest| ==> rest[k] in rest;
    } else {
      assert us[0..] == [ms[0]] + rest && rest[0..] == rest;
      assert us[0..][0] == ms[0];
    }
  }

  /** Filtering by identity against the kept suffix is dropping the oldest. */
  lemma {:induction false} MergeIsDropOldest(
    ms: History, n: nat, pinned: set<ContextMessage>, kept: set<ContextMessage>)
    requires NoDup(ms) && n <= |UnpinnedOf(ms)| && SelectsFrom(ms, n, pinned, kept)
    ensures Merge(ms, pinned, kept) == DropOldest(ms, n)
  {
    if ms != [] {
      MergeFront(ms, pinned, kept);
      SelectsFromRest(ms, n, pinned, kept);
      MergeIsDropOldest(ms[1..], if ms[0].pinned || n == 0 then n else n - 1, pinned, kept);
      assert [ms[0]] + ms[1..] == ms;
    }
  }

  // ---------------------------------------------------------------------------------------------
  // The manager
  // ---------------------------------------------------------------------------------------------

  class ContextManager {
    const maxTokens: int
    const reserveTokens: int
    var messages: History

    /** Every message was created by its own `add_message`, so no object occurs twice. */
    ghost predicate Valid()
      reads this
    {
      NoDup(messages)
    }

    /** `window` is the model's own context window, used when no maximum, or a zero one, is given. */
    constructor (maxTokens: Option<int>, window: int, reserveTokens: int)
      ensures Valid() && messages == [] && this.reserveTokens == reserveTokens
      ensures this.maxTokens == if maxTokens.Some? && maxTokens.value != 0 then maxTokens.value else window
    {
      this.maxTokens := if maxTokens.Some? && maxTokens.value != 0 then maxTokens.value else window;
      this.reserveTokens := reserveTokens;
      messages := [];
    }

    method AddMessage(role: string, content: string, tokenCount: int, pinned: bool) returns (m: ContextMessage)
      requires Valid()
      modifies this
      ensures Valid() && fresh(m)
      ensures messages == old(messages) + [m]
      ensures m.role == role && m.content == content && m.pinned == pinned
      ensures m.tokenCount == if tokenCount == 0 then EstimateTokens(content) else tokenCount
    {
      m := new ContextMessage(role, content, tokenCount, pinned);
      messages := messages + [m];
    }

    method CanFitTokens(tokens: int) returns (fits: bool)
      ensures fits == CanFit(messages, maxTokens, reserveTokens, tokens)
    {
      var used := 0;
      for i := 0 to |messages|
        invariant used + Total(messages[i..]) == Total(messages)
      {
        assert messages[i..][1..] == messages[i + 1..];
        used := used + messages[i].tokenCount;
      }
      var remaining := Max(0, maxTokens - used);
      fits := tokens <= Max(0, remaining - reserveTokens);
    }

    method GetTruncatedHistory(reserve: Option<int>) returns (r: History)
      requires Valid()
      ensures r == Truncate(messages, maxTokens - if reserve.Some? then reserve.value else reserveTokens)
    {
      var budget := maxTokens - if reserve.Some? then reserve.value else reserveTokens;
      if Total(messages) <= budget {
        return messages;
      }
      var pinned, unpinned := PinnedOf(messages), UnpinnedOf(messages);
      var remainingBudget := budget - Total(pinned);
      if remainingBudget <= 0 {
        DropAllKeepsPinned(messages);
        return pinned;
      }
      var kept := KeepLatest(unpinned, remainingBudget);
      r := MergeKept(pinned, kept);
    }

    /** The backward loop with its early exit. */
    method KeepLatest(unpinned: History, room: int) returns (kept: History)
      ensures kept == unpinned[|unpinned| - Greedy(unpinned, room)..]
    {
      kept := [];
      var used, i := 0, |unpinned|;
      assert unpinned[..|unpinned|] == unpinned;
      while i > 0
        invariant 0 <= i <= |unpinned|
        invariant kept == unpinned[i..]
        invariant |unpinned| - i + Greedy(unpinned[..i], room - used) == Greedy(unpinned, room)
      {
        var msg := unpinned[i - 1];
        assert unpinned[..i][..i - 1] == unpinned[..i - 1];
        if used + msg.tokenCount <= room {
          kept := [msg] + kept;
          used := used + msg.tokenCount;
          i := i - 1;
        } else {
          break;
        }
      }
    }

    /** The final pass, which keeps a message by the identity of its object. */
    method MergeKept(pinned: History, kept: History) returns (result: History)
      requires Valid() && pinned == PinnedOf(messages)
      requires |kept| <= |UnpinnedOf(messages)| && kept == UnpinnedOf(messages)[|UnpinnedOf(messages)| - |kept|..]
      ensures result == DropOldest(messages, |UnpinnedOf(messages)| - |kept|)
    {
      result := [];
      var pinnedSet, keptSet := (set m | m in pinned), (set m | m in kept);
      for i := 0 to |messages|
        invariant result == Merge(messages[..i], pinnedSet, keptSet)
      {
        assert messages[..i + 1][..i] == messages[..i];
        var msg := messages[i];
        if msg in pinnedSet || msg in keptSet {
          result := result + [msg];
        }
      }
      assert messages[..|messages|] == messages;
      UnpinnedMembers(messages);
      MergeIsDropOldest(messages, |UnpinnedOf(messages)| - |kept|, pinnedSet, keptSet);
    }

    method Clear()
      modifies this
      ensures Valid() && messages == []
    {
      messages := [];
    }
  }
}
