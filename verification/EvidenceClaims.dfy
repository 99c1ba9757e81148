/**
 Claim building and synthesis (nexus_research.py): sources are grouped by anchor, each group is split
 into support and opposition by the contradictions between sources, and scored. An anchor is what
 `_claim_anchor` returns for a source; excerpts are taken as already lower-cased.
 */
module EvidenceClaims {
  import opened Common
  import opened EvidenceSelection
  import opened Sorting

  /** The number in a source id such as S3. */
  type SourceId = nat

  datatype Anchor = Anchor(text: string)

  datatype Query = Query(text: string)

  datatype Source = Source(
    id: SourceId, file: File, anchor: Anchor, verification: real, hits: nat, retrieval: real,
    queries: seq<Query>, excerpt: string)

  function IdsOf(sources: seq<Source>): set<SourceId> { set s | s in sources :: s.id }

  ghost predicate UniqueIds(sources: seq<Source>) {
    forall i, j :: 0 <= i < j < |sources| ==> sources[i].id != sources[j].id
  }

  // ---------------------------------------------------------------------------------------------
  // Contradictions
  // ---------------------------------------------------------------------------------------------

  datatype Rule = Rule(left: string, right: string)

  const CONTRADICTION_RULES :=
    [Rule("workspace/.nexus", "nexus_root/.nexus"), Rule("default runtime authority", "historical review")]

  /** The substring test. */
  predicate Contains(text: string, pattern: string) {
    pattern <= text || (text != "" && Contains(text[1..], pattern))
  }

  /** The sources on either side of a rule. */
  datatype Contradiction = Contradiction(left: set<SourceId>, right: set<SourceId>)

  function Matching(sources: seq<Source>, pattern: string): set<SourceId> {
    set s | s in sources && Contains(s.excerpt, pattern) :: s.id
  }

  function Contradictions(sources: seq<Source>, rules: seq<Rule>): seq<Contradiction> {
    if rules == [] then []
    else
      var earlier, rule := Contradictions(sources, rules[..|rules| - 1]), rules[|rules| - 1];
      var left, right := Matching(sources, rule.left), Matching(sources, rule.right);
      if left != {} && right != {} then earlier + [Contradiction(left, right)] else earlier
  }

  /** At most one contradiction for each rule, with known sources on both sides. */
  lemma {:induction false} ContradictionsAreGrounded(sources: seq<Source>, rules: seq<Rule>)
    ensures |Contradictions(sources, rules)| <= |rules|
    ensures forall k :: 0 <= k < |Contradictions(sources, rules)| ==>
      var c := Contradictions(sources, rules)[k];
      c.left != {} && c.right != {} && c.left <= IdsOf(sources) && c.right <= IdsOf(sources)
  {
    if rules != [] {
      ContradictionsAreGrounded(sources, rules[..|rules| - 1]);
    }
  }

  method BuildContradictions(sources: seq<Source>) returns (contradictions: seq<Contradiction>)
    ensures contradictions == Contradictions(sources, CONTRADICTION_RULES)
  {
    contradictions := [];
    var rules := CONTRADICTION_RULES;
    for i := 0 to |rules|
      invariant contradictions == Contradictions(sources, rules[..i])
    {
      assert rules[..i + 1][..i] == rules[..i];
      var leftHits, rightHits := Matching(sources, rules[i].left), Matching(sources, rules[i].right);
      if leftHits != {} && rightHits != {} {
        contradictions := contradictions + [Contradiction(leftHits, rightHits)];
      }
    }
    assert rules[..|rules|] == rules;
  }

  // ---------------------------------------------------------------------------------------------
  // Grouping
  // ---------------------------------------------------------------------------------------------

  function GroupOf(sources: seq<Source>, anchor: Anchor): seq<Source> {
    if sources == [] then []
    else
      var earlier, last := GroupOf(sources[..|sources| - 1], anchor), sources[|sources| - 1];
      if last.anchor == anchor then earlier + [last] else earlier
  }

  /** The anchors in the order in which they first occur. */
  function AnchorsOf(sources: seq<Source>): seq<Anchor> {
    if sources == [] then []
    else
      var earlier, a := AnchorsOf(sources[..|sources| - 1]), sources[|sources| - 1].anchor;
      if a in earlier then earlier else earlier + [a]
  }

  lemma {:induction false} GroupMembers(sources: seq<Source>, anchor: Anchor)
    ensures forall s :: s in GroupOf(sources, anchor) <==> s in sources && s.anchor == anchor
  {
    if sources != [] {
      GroupMembers(sources[..|sources| - 1], anchor);
      assert sources == sources[..|sources| - 1] + [sources[|sources| - 1]];
    }
  }

  lemma {:induction false} AnchorsAreDistinct(sources: seq<Source>)
    ensures NoDup(AnchorsOf(sources))
    ensures forall a :: a in AnchorsOf(sources) <==> GroupOf(sources, a) != []
  {
    if sources != [] {
      AnchorsAreDistinct(sources[..|sources| - 1]);
    }
  }

  // ---------------------------------------------------------------------------------------------
  // Strength order
  // ---------------------------------------------------------------------------------------------

  /** The sort key compares verification score, then query hits, then retrieval score. */
  predicate AtLeastAsStrong(a: Source, b: Source) {
    a.verification > b.verification
    || (a.verification == b.verification && (a.hits > b.hits || (a.hits == b.hits && a.retrieval >= b.retrieval)))
  }

  /** The stable library sort, strongest first. */
  function SortByStrength(group: seq<Source>): (r: seq<Source>)
    ensures |r| == |group|
  {
    Sort(group, AtLeastAsStrong)
  }

  /** Sorting keeps the members, and each is at least as strong as those after it. */
  lemma {:induction false} SortMembers(group: seq<Source>)
    ensures forall s :: s in SortByStrength(group) <==> s in group
    ensures Pairwise(SortByStrength(group), AtLeastAsStrong)
  {
    SortPermutes(group, AtLeastAsStrong);
    SortOrders(group, AtLeastAsStrong, AtLeastAsStrong);
  }

  // ---------------------------------------------------------------------------------------------
  // Support and opposition
  // ---------------------------------------------------------------------------------------------

  datatype Stance = Stance(support: set<SourceId>, oppose: set<SourceId>)

  /** The verification score of the listed sources whose ids are given. */
  function Weight(sources: seq<Source>, ids: set<SourceId>): real {
    if sources == [] then 0.0
    else (if sources[0].id in ids then sources[0].verification else 0.0) + Weight(sources[1..], ids)
  }

  /** One contradiction: the side of the lead, or else the heavier side, is supported. */
  function Judge(ordered: seq<Source>, st: Stance, c: Contradiction): Stance
    requires ordered != []
  {
    var lead, group := ordered[0].id, IdsOf(ordered);
    if lead in c.left then Stance(st.support - (c.right * group), st.oppose + c.right)
    else if lead in c.right then Stance(st.support - (c.left * group), st.oppose + c.left)
    else if group * c.left != {} && group * c.right != {} then
      if Weight(ordered, c.left) >= Weight(ordered, c.right) then
        Stance(st.support - (c.right * group), st.oppose + c.right)
      else Stance(st.support - (c.left * group), st.oppose + c.left)
    else st
  }

  function JudgeAll(ordered: seq<Source>, cs: seq<Contradiction>): Stance
    requires ordered != []
  {
    if cs == [] then Stance(IdsOf(ordered), {})
    else Judge(ordered, JudgeAll(ordered, cs[..|cs| - 1]), cs[|cs| - 1])
  }

  /** Support falls back to the lead alone, and nothing both supports and opposes. */
  function Settled(ordered: seq<Source>, cs: seq<Contradiction>): Stance
    requires ordered != []
  {
    var st := JudgeAll(ordered, cs);
    var support := if st.support == {} then {ordered[0].id} else st.support;
    Stance(support, st.oppose - support)
  }

  lemma {:induction false} JudgingSplitsGroup(ordered: seq<Source>, cs: seq<Contradiction>)
    requires ordered != []
    ensures var st := JudgeAll(ordered, cs);
      st.support <= IdsOf(ordered) && IdsOf(ordered) <= st.support + st.oppose
  {
    if cs != [] {
      JudgingSplitsGroup(ordered, cs[..|cs| - 1]);
    }
  }

  lemma {:induction false} JudgingOpposesNamed(ordered: seq<Source>, cs: seq<Contradiction>)
    requires ordered != []
    ensures JudgeAll(ordered, cs).oppose <= Named(cs)
  {
    if cs != [] {
      JudgingOpposesNamed(ordered, cs[..|cs| - 1]);
    }
  }

  /** Within a group, every source either supports the claim or opposes it, never both, and some source supports it. */
  lemma {:induction false} SettledSplitsGroup(ordered: seq<Source>, cs: seq<Contradiction>)
    requires ordered != []
    ensures var st := Settled(ordered, cs);
      && st.support != {} && st.support <= IdsOf(ordered)
      && st.support !! st.oppose
      && IdsOf(ordered) == st.support + (st.oppose * IdsOf(ordered))
  {
    JudgingSplitsGroup(ordered, cs);
    assert ordered[0] in ordered;
  }

  /** The lead is on both sides of no contradiction. */
  ghost predicate LeadIsConsistent(ordered: seq<Source>, cs: seq<Contradiction>)
    requires ordered != []
  {
    forall k :: 0 <= k < |cs| ==> !(ordered[0].id in cs[k].left && ordered[0].id in cs[k].right)
  }

  /**
   The side that a contradiction counts against the group's claim: the one across from the lead, or
   else the lighter one.
   */
  function Loser(ordered: seq<Source>, c: Contradiction): set<SourceId>
    requires ordered != []
  {
    var lead, group := ordered[0].id, IdsOf(ordered);
    if lead in c.left then c.right
    else if lead in c.right then c.left
    else if group * c.left == {} || group * c.right == {} then {}
    else if Weight(ordered, c.left) >= Weight(ordered, c.right) then c.right
    else c.left
  }

  ghost predicate Outvoted(ordered: seq<Source>, cs: seq<Contradiction>, id: SourceId)
    requires ordered != []
  {
    exists k :: 0 <= k < |cs| && id in Loser(ordered, cs[k])
  }

  ghost predicate AllOutvoted(ordered: seq<Source>, cs: seq<Contradiction>)
    requires ordered != []
  {
    forall id :: id in IdsOf(ordered) ==> Outvoted(ordered, cs, id)
  }

  lemma {:induction false} OutvotedSplits(ordered: seq<Source>, cs: seq<Contradiction>, id: SourceId)
    requires ordered != [] && cs != []
    ensures Outvoted(ordered, cs, id)
            <==> Outvoted(ordered, cs[..|cs| - 1], id) || id in Loser(ordered, cs[|cs| - 1])
  {
    var n := |cs| - 1;
    assert forall k :: 0 <= k < n ==> cs[..n][k] == cs[k];
  }

  lemma {:induction false} JudgingFollowsLosers(ordered: seq<Source>, cs: seq<Contradiction>, id: SourceId)
    requires ordered != []
    ensures id in JudgeAll(ordered, cs).support <==> id in IdsOf(ordered) && !Outvoted(ordered, cs, id)
    ensures id in JudgeAll(ordered, cs).oppose <==> Outvoted(ordered, cs, id)
  {
    if cs != [] {
      JudgingFollowsLosers(ordered, cs[..|cs| - 1], id);
      OutvotedSplits(ordered, cs, id);
    }
  }

  /**
   Which sources support a claim and which oppose it: a member of the group supports it unless some
   contradiction counts against it, and every id that a contradiction counts against opposes it; only
   when all members are outvoted does the lead, and nobody else, support it all the same.
   */
  lemma {:induction false} SettledFollowsLosers(ordered: seq<Source>, cs: seq<Contradiction>, id: SourceId)
    requires ordered != []
    ensures var st := Settled(ordered, cs);
      && (id in st.support <==>
          if AllOutvoted(ordered, cs) then id == ordered[0].id else id in IdsOf(ordered) && !Outvoted(ordered, cs, id))
      && (id in st.oppose <==> Outvoted(ordered, cs, id) && !(AllOutvoted(ordered, cs) && id == ordered[0].id))
  {
    JudgingFollowsLosers(ordered, cs, id);
    SupportRunsOutIff(ordered, cs);
  }

  lemma {:induction false} SupportRunsOutIff(ordered: seq<Source>, cs: seq<Contradiction>)
    requires ordered != []
    ensures JudgeAll(ordered, cs).support == {} <==> AllOutvoted(ordered, cs)
  {
    forall id ensures id in JudgeAll(ordered, cs).support <==> id in IdsOf(ordered) && !Outvoted(ordered, cs, id) {
      JudgingFollowsLosers(ordered, cs, id);
    }
  }

  /** The order of the contradictions, and their repetition, make no difference. */
  lemma {:induction false} OrderIsIrrelevant(ordered: seq<Source>, cs: seq<Contradiction>, ds: seq<Contradiction>)
    requires ordered != [] && forall c :: c in cs <==> c in ds
    ensures Settled(ordered, cs) == Settled(ordered, ds)
  {
    var st, su := Settled(ordered, cs), Settled(ordered, ds);
    forall id ensures Outvoted(ordered, cs, id) <==> Outvoted(ordered, ds, id) {
      OutvotedOnlyByMembers(ordered, cs, ds, id);
      OutvotedOnlyByMembers(ordered, ds, cs, id);
    }
    forall id ensures (id in st.support <==> id in su.support) && (id in st.oppose <==> id in su.oppose) {
      SettledFollowsLosers(ordered, cs, id);
      SettledFollowsLosers(ordered, ds, id);
    }
    assert st.support == su.support && st.oppose == su.oppose;
  }

  lemma {:induction false} OutvotedOnlyByMembers(
    ordered: seq<Source>, cs: seq<Contradiction>, ds: seq<Contradiction>, id: SourceId)
    requires ordered != [] && forall c :: c in cs ==> c in ds
    ensures Outvoted(ordered, cs, id) ==> Outvoted(ordered, ds, id)
  {
    if Outvoted(ordered, cs, id) {
      var k :| 0 <= k < |cs| && id in Loser(ordered, cs[k]);
      assert cs[k] in ds;
      var j :| 0 <= j < |ds| && ds[j] == cs[k];
    }
  }

  /**
   The strongest source supports its own claim unless it is itself on both sides of a contradiction
   and some member of the group is not outvoted.
   */
  lemma {:induction false} LeadSupportsIff(ordered: seq<Source>, cs: seq<Contradiction>)
    requires ordered != []
    ensures ordered[0].id in Settled(ordered, cs).support <==> LeadIsConsistent(ordered, cs) || AllOutvoted(ordered, cs)
  {
    assert ordered[0] in ordered;
    SettledFollowsLosers(ordered, cs, ordered[0].id);
    assert Outvoted(ordered, cs, ordered[0].id) <==> !LeadIsConsistent(ordered, cs) by {
      forall k | 0 <= k < |cs|
        ensures ordered[0].id in Loser(ordered, cs[k]) <==> ordered[0].id in cs[k].left && ordered[0].id in cs[k].right
      {
      }
    }
  }

  /**
   A lead whose excerpt holds both patterns of a rule loses its own claim to a weaker source that
   holds one of them.
   */
  lemma {:induction false} TwoSidedLeadLosesItsClaim(a: Source, b: Source)
    requires a.id != b.id
    requires Contains(a.excerpt, "workspace/.nexus") && Contains(a.excerpt, "nexus_root/.nexus")
    requires Contains(b.excerpt, "workspace/.nexus") && !Contains(b.excerpt, "nexus_root/.nexus")
    requires !Contains(a.excerpt, "historical review") && !Contains(b.excerpt, "historical review")
    ensures Settled([a, b], Contradictions([a, b], CONTRADICTION_RULES)) == Stance({b.id}, {a.id})
  {
    MatchingOfTwo(a, b, "workspace/.nexus");
    MatchingOfTwo(a, b, "nexus_root/.nexus");
    MatchingOfTwo(a, b, "historical review");
    var rules := CONTRADICTION_RULES;
    var left, right := Matching([a, b], "workspace/.nexus"), Matching([a, b], "nexus_root/.nexus");
    assert left == {a.id, b.id} && right == {a.id};
    assert rules[..1] == [rules[0]] && rules[..1][..0] == [];
    assert Contradictions([a, b], rules[..1]) == [Contradiction(left, right)];
    TwoSidedLeadSettles(a, b);
  }

  lemma {:induction false} MatchingOfTwo(a: Source, b: Source, pattern: string)
    ensures Matching([a, b], pattern)
            == (if Contains(a.excerpt, pattern) then {a.id} else {})
              + (if Contains(b.excerpt, pattern) then {b.id} else {})
  {
    assert a in [a, b] && b in [a, b];
  }

  lemma {:induction false} TwoSidedLeadSettles(a: Source, b: Source)
    requires a.id != b.id
    ensures Settled([a, b], [Contradiction({a.id, b.id}, {a.id})]) == Stance({b.id}, {a.id})
  {
    var both, c := [a, b], Contradiction({a.id, b.id}, {a.id});
    assert a in both && b in both;
    assert IdsOf(both) == {a.id, b.id};
    assert [c][..0] == [];
    assert JudgeAll(both, [c]) == Judge(both, Stance({a.id, b.id}, {}), c);
    assert {a.id, b.id} - {a.id} == {b.id};
  }

  /** The verification that the listed sources with these ids have between them. */
  ghost function SideTotal(ordered: seq<Source>, ids: set<SourceId>): real {
    if ordered == [] then 0.0
    else
      var last := ordered[|ordered| - 1];
      SideTotal(ordered[..|ordered| - 1], ids) + if last.id in ids then last.verification else 0.0
  }

  lemma {:induction false} SideTotalFront(s: Source, rest: seq<Source>, ids: set<SourceId>)
    ensures SideTotal([s] + rest, ids) == (if s.id in ids then s.verification else 0.0) + SideTotal(rest, ids)
  {
    if rest == [] {
      assert ([s] + rest)[..0] == [];
    } else {
      var n := |rest| - 1;
      assert ([s] + rest)[..n + 1] == [s] + rest[..n];
      SideTotalFront(s, rest[..n], ids);
    }
  }

  lemma {:induction false} WeightIsTotal(ordered: seq<Source>, ids: set<SourceId>)
    ensures Weight(ordered, ids) == SideTotal(ordered, ids)
  {
    if ordered != [] {
      WeightIsTotal(ordered[1..], ids);
      SideTotalFront(ordered[0], ordered[1..], ids);
      assert ordered == [ordered[0]] + ordered[1..];
    }
  }

  /**
   Every dispute that leaves the lead out and has members of the group on both sides goes to the heavier
   side: the other one opposes the claim in full, whatever the further contradictions are.
   */
  lemma {:induction false} DisputeGoesToHeavierSide(ordered: seq<Source>, cs: seq<Contradiction>, k: nat)
    requires ordered != [] && k < |cs| && ordered[0].id !in cs[k].left + cs[k].right
    requires IdsOf(ordered) * cs[k].left != {} && IdsOf(ordered) * cs[k].right != {}
    ensures var c, st := cs[k], Settled(ordered, cs);
      if SideTotal(ordered, c.left) >= SideTotal(ordered, c.right) then c.right <= st.oppose && c.right !! st.support
      else c.left <= st.oppose && c.left !! st.support
  {
    WeightIsTotal(ordered, cs[k].left);
    WeightIsTotal(ordered, cs[k].right);
    var loser, st := Loser(ordered, cs[k]), Settled(ordered, cs);
    forall id | id in loser ensures id in st.oppose && id !in st.support {
      SettledFollowsLosers(ordered, cs, id);
    }
  }

  /** A larger share of the group weighs at least as much. */
  lemma {:induction false} WeightGrows(sources: seq<Source>, a: set<SourceId>, b: set<SourceId>)
    requires forall i :: 0 <= i < |sources| ==>
      sources[i].verification >= 0.0 && (sources[i].id in a ==> sources[i].id in b)
    ensures Weight(sources, a) <= Weight(sources, b)
  {
    if sources != [] {
      WeightGrows(sources[1..], a, b);
    }
  }

  /**
   In a single dispute that leaves the lead out and has no source on both sides, the supporters weigh
   at least as much as the opposition.
   */
  lemma {:induction false} DisputeKeepsHeavierSide(ordered: seq<Source>, c: Contradiction)
    requires ordered != [] && c.left !! c.right && ordered[0].id !in c.left + c.right
    requires forall i :: 0 <= i < |ordered| ==> ordered[i].verification >= 0.0
    ensures var st := Settled(ordered, [c]); SideTotal(ordered, st.support) >= SideTotal(ordered, st.oppose)
  {
    WeightIsTotal(ordered, Settled(ordered, [c]).support);
    WeightIsTotal(ordered, Settled(ordered, [c]).oppose);
    var st, ids := Settled(ordered, [c]), IdsOf(ordered);
    assert JudgeAll(ordered, [c][..0]) == Stance(ids, {});
    assert JudgeAll(ordered, [c]) == Judge(ordered, Stance(ids, {}), c);
    assert ordered[0] in ordered && ordered[0].id in ids;
    forall i | 0 <= i < |ordered| ensures ordered[i].id in ids {
      assert ordered[i] in ordered;
    }
    if st.oppose == {} {
      WeightGrows(ordered, {}, st.support);
    } else if Weight(ordered, c.left) >= Weight(ordered, c.right) {
      WeightGrows(ordered, c.left, st.support);
      WeightGrows(ordered, st.oppose, c.right);
    } else {
      WeightGrows(ordered, c.right, st.support);
      WeightGrows(ordered, st.oppose, c.left);
    }
  }

  method SettleGroup(ordered: seq<Source>, cs: seq<Contradiction>) returns (st: Stance)
    requires ordered != []
    ensures st == Settled(ordered, cs)
  {
    var lead, groupIds := ordered[0].id, IdsOf(ordered);
    var supporting, opposing: set<SourceId> := groupIds, {};
    for i := 0 to |cs|
      invariant Stance(supporting, opposing) == JudgeAll(ordered, cs[..i])
    {
      assert cs[..i + 1][..i] == cs[..i];
      var left, right := cs[i].left, cs[i].right;
      if lead in left {
        opposing := opposing + right;
        supporting := supporting - (right * groupIds);
      } else if lead in right {
        opposing := opposing + left;
        supporting := supporting - (left * groupIds);
      } else if groupIds * left != {} && groupIds * right != {} {
        if Weight(ordered, left) >= Weight(ordered, right) {
          opposing := opposing + right;
          supporting := supporting - (right * groupIds);
        } else {
          opposing := opposing + left;
          supporting := supporting - (left * groupIds);
        }
      }
    }
    assert cs[..|cs|] == cs;
    if supporting == {} {
      supporting := {lead};
    }
    opposing := opposing - supporting;
    return Stance(supporting, opposing);
  }

  // ---------------------------------------------------------------------------------------------
  // Scores
  // ---------------------------------------------------------------------------------------------

  /** Rounding to two decimals, halves to even. */
  function Round2(x: real): real {
    var y := x * 100.0;
    var f := y.Floor;
    var d := y - f as real;
    var n := if d < 0.5 then f else if d > 0.5 then f + 1 else if f % 2 == 0 then f else f + 1;
    n as real / 100.0
  }

  /** Rounding never carries a value past zero or one. */
  lemma {:induction false} RoundKeepsUnit(x: real)
    ensures x >= 0.0 ==> Round2(x) >= 0.0
    ensures x <= 1.0 ==> Round2(x) <= 1.0
  {
  }

  predicate InUnit(x: real) { 0.0 <= x <= 1.0 }

  function Quotient(a: real, n: nat): real
    requires n > 0
  {
    a / n as real
  }

  /** `n` supporting sources, `k` opposing ones. */
  function ClaimScore(supportScore: real, queryCoverage: real, files: nat, n: nat, k: nat): real {
    var diversity := MinReal(files as real / 2.0, 1.0);
    var bonus := MinReal((n as real - 1.0) * 0.1, 0.2);
    var penalty := MinReal(k as real * 0.15, 0.35);
    MaxReal(MinReal(Round2(0.50 * supportScore + 0.25 * queryCoverage + 0.15 * diversity + bonus - penalty), 1.0), 0.0)
  }

  datatype ClaimStatus = Supported | Mixed | Weak

  function StatusFor(opposed: bool, score: real): ClaimStatus {
    if opposed then Mixed else if score >= 0.55 then Supported else Weak
  }

  // ---------------------------------------------------------------------------------------------
  // Claims
  // ---------------------------------------------------------------------------------------------

  datatype Claim = Claim(
    number: nat, anchor: Anchor, support: seq<SourceId>, oppose: set<SourceId>, queries: seq<Query>,
    status: ClaimStatus, score: real)

  function Supporting(ordered: seq<Source>, support: set<SourceId>): seq<Source> {
    if ordered == [] then []
    else (if ordered[0].id in support then [ordered[0]] else []) + Supporting(ordered[1..], support)
  }

  function IdList(sources: seq<Source>): seq<SourceId> {
    seq(|sources|, i requires 0 <= i < |sources| => sources[i].id)
  }

  const WHITESPACE := " \t\n\r\U{0B}\U{0C}"

  function StripLeft(text: string): (r: string)
    ensures |r| <= |text|
  {
    if text != "" && text[0] in WHITESPACE then StripLeft(text[1..]) else text
  }

  function StripRight(text: string): string {
    if text != "" && text[|text| - 1] in WHITESPACE then StripRight(text[..|text| - 1]) else text
  }

  function Stripped(q: Query): Query { Query(StripRight(StripLeft(q.text))) }

  /** First occurrences only, in order, stripped of surrounding whitespace; a blank query is dropped. */
  function Dedupe(queries: seq<Query>): seq<Query> {
    if queries == [] then []
    else
      var earlier, last := Dedupe(queries[..|queries| - 1]), Stripped(queries[|queries| - 1]);
      if last.text == "" || last in earlier then earlier else earlier + [last]
  }

  function AllQueries(sources: seq<Source>): seq<Query> {
    if sources == [] then [] else sources[0].queries + AllQueries(sources[1..])
  }

  function FileCount(sources: seq<Source>): nat { |set s | s in sources :: s.file| }

  function SumVerification(sources: seq<Source>): real {
    if sources == [] then 0.0 else sources[0].verification + SumVerification(sources[1..])
  }

  /** The claim of one group, strongest source first. */
  function ClaimOf(number: nat, anchor: Anchor, ordered: seq<Source>, cs: seq<Contradiction>, subqueries: nat): Claim
    requires ordered != []
  {
    var st := Settled(ordered, cs);
    var backing := Supporting(ordered, st.support);
    var queries := Dedupe(AllQueries(backing));
    var score := ClaimScore(
      if backing == [] then 0.0 else Quotient(SumVerification(backing), |backing|),
      Quotient(|queries| as real, Max(subqueries, 1)), FileCount(backing), |backing|, |st.oppose|);
    Claim(number, anchor, IdList(backing), st.oppose, queries, StatusFor(st.oppose != {}, score), score)
  }

  /** The claim of an anchor's group; every anchor in use has one. */
  function DraftClaim(
    sources: seq<Source>, number: nat, anchor: Anchor, cs: seq<Contradiction>, subqueries: nat): Claim {
    var ordered := SortByStrength(GroupOf(sources, anchor));
    if ordered == [] then Claim(number, anchor, [], {}, [], Weak, 0.0)
    else ClaimOf(number, anchor, ordered, cs, subqueries)
  }

  /** The claims in group order, before the final sort. */
  function Drafts(sources: seq<Source>, anchors: seq<Anchor>, cs: seq<Contradiction>, subqueries: nat): (r: seq<Claim>)
    ensures |r| == |anchors|
  {
    if anchors == [] then []
    else
      var n := |anchors| - 1;
      Drafts(sources, anchors[..n], cs, subqueries) + [DraftClaim(sources, n + 1, anchors[n], cs, subqueries)]
  }

  lemma {:induction false} SupportingMembers(ordered: seq<Source>, support: set<SourceId>)
    ensures forall s :: s in Supporting(ordered, support) <==> s in ordered && s.id in support
  {
    if ordered != [] {
      SupportingMembers(ordered[1..], support);
      assert ordered == [ordered[0]] + ordered[1..];
    }
  }

  /** The listed support is exactly the settled support. */
  lemma {:induction false} SupportIsListed(ordered: seq<Source>, support: set<SourceId>)
    requires support <= IdsOf(ordered)
    ensures forall id :: id in IdList(Supporting(ordered, support)) <==> id in support
  {
    SupportingMembers(ordered, support);
    var backing := Supporting(ordered, support);
    forall id | id in support ensures id in IdList(backing) {
      var s :| s in ordered && s.id == id;
      assert s in backing;
      var k :| 0 <= k < |backing| && backing[k] == s;
      assert IdList(backing)[k] == id;
    }
    forall k | 0 <= k < |backing| ensures IdList(backing)[k] in support {
      assert backing[k] in backing;
    }
  }

  // ---------------------------------------------------------------------------------------------
  // What every claim satisfies
  // ---------------------------------------------------------------------------------------------

  /** The ids that contradictions name. */
  ghost function Named(cs: seq<Contradiction>): set<SourceId> {
    if cs == [] then {} else Named(cs[..|cs| - 1]) + cs[|cs| - 1].left + cs[|cs| - 1].right
  }

  /** A claim against its group: who supports, who opposes, how it is marked, and how it is scored. */
  ghost predicate Fits(sources: seq<Source>, cs: seq<Contradiction>, c: Claim) {
    var own, ordered := IdsOf(GroupOf(sources, c.anchor)), SortByStrength(GroupOf(sources, c.anchor));
    && ordered != [] && Elements(c.support) == Settled(ordered, cs).support && c.oppose == Settled(ordered, cs).oppose
    && c.support != [] && Elements(c.support) <= own
    && Elements(c.support) !! c.oppose
    && own == Elements(c.support) + (c.oppose * own)
    && c.oppose <= Named(cs)
    && (c.status == Mixed <==> c.oppose != {})
    && (c.status == Supported ==> c.score >= 0.55) && (c.status == Weak ==> c.score < 0.55)
    && InUnit(c.score)
  }

  lemma {:induction false} ClaimFits(
    sources: seq<Source>, number: nat, anchor: Anchor, cs: seq<Contradiction>, subqueries: nat)
    requires GroupOf(sources, anchor) != []
    ensures Fits(sources, cs, DraftClaim(sources, number, anchor, cs, subqueries))
    ensures DraftClaim(sources, number, anchor, cs, subqueries).anchor == anchor
  {
    var group := GroupOf(sources, anchor);
    var ordered := SortByStrength(group);
    var c := ClaimOf(number, anchor, ordered, cs, subqueries);
    SortMembers(group);
    assert IdsOf(ordered) == IdsOf(group);
    SettledSplitsGroup(ordered, cs);
    SupportIsListed(ordered, Settled(ordered, cs).support);
    assert Elements(c.support) == Settled(ordered, cs).support;
    JudgingOpposesNamed(ordered, cs);
  }

  lemma {:induction false} FitsIgnoresNumber(sources: seq<Source>, cs: seq<Contradiction>, c: Claim, number: nat)
    requires Fits(sources, cs, c)
    ensures Fits(sources, cs, c.(number := number))
  {
  }

  ghost predicate DistinctAnchors(claims: seq<Claim>) {
    forall i, j :: 0 <= i < j < |claims| ==> claims[i].anchor != claims[j].anchor
  }

  ghost predicate AllFit(sources: seq<Source>, cs: seq<Contradiction>, claims: seq<Claim>) {
    forall i :: 0 <= i < |claims| ==> Fits(sources, cs, claims[i])
  }

  lemma {:induction false} DraftAt(
    sources: seq<Source>, anchors: seq<Anchor>, cs: seq<Contradiction>, subqueries: nat, i: nat)
    requires i < |anchors|
    ensures Drafts(sources, anchors, cs, subqueries)[i] == DraftClaim(sources, i + 1, anchors[i], cs, subqueries)
  {
    if i < |anchors| - 1 {
      DraftAt(sources, anchors[..|anchors| - 1], cs, subqueries, i);
    }
  }

  // ---------------------------------------------------------------------------------------------
  // The final order
  // ---------------------------------------------------------------------------------------------

  function StatusRank(s: ClaimStatus): nat {
    match s
    case Supported => 0
    case Mixed => 1
    case Weak => 2
  }

  const DIGITS := "0123456789"

  function Decimal(n: nat): string {
    if n < 10 then [DIGITS[n]] else Decimal(n / 10) + [DIGITS[n % 10]]
  }

  predicate LexAtMost(a: string, b: string) {
    a == "" || (b != "" && (a[0] < b[0] || (a[0] == b[0] && LexAtMost(a[1..], b[1..]))))
  }

  /** By status, then by falling score, then by the claim id as text, so that CL10 comes before CL2. */
  predicate ComesFirst(a: Claim, b: Claim) {
    var r, q := StatusRank(a.status), StatusRank(b.status);
    r < q || (r == q && (a.score > b.score || (a.score == b.score && LexAtMost(Decimal(a.number), Decimal(b.number)))))
  }

  function SortClaims(claims: seq<Claim>): (r: seq<Claim>)
    ensures |r| == |claims|
  {
    Sort(claims, ComesFirst)
  }

  function Renumbered(claims: seq<Claim>): seq<Claim> {
    seq(|claims|, i requires 0 <= i < |claims| => claims[i].(number := i + 1))
  }

  /** Supported before mixed, and mixed before weak. */
  ghost predicate IsBetterStatus(a: ClaimStatus, b: ClaimStatus) {
    (a == Supported && b != Supported) || (a == Mixed && b == Weak)
  }

  ghost predicate NotWorse(a: Claim, b: Claim) {
    IsBetterStatus(a.status, b.status) || (a.status == b.status && a.score >= b.score)
  }

  ghost predicate Ranked(claims: seq<Claim>) { forall i, j :: 0 <= i < j < |claims| ==> NotWorse(claims[i], claims[j]) }

  ghost predicate HaveOwnAnchors(a: Claim, b: Claim) { a.anchor != b.anchor }

  /** The final sort rearranges the claims: best status first, then falling score. */
  lemma {:induction false} SortedClaims(claims: seq<Claim>)
    ensures forall c :: c in SortClaims(claims) <==> c in claims
    ensures Ranked(SortClaims(claims))
  {
    SortPermutes(claims, ComesFirst);
    ComesFirstAgrees(claims);
    SortOrders(claims, ComesFirst, NotWorse);
    var sorted := SortClaims(claims);
    forall i, j | 0 <= i < j < |sorted| ensures NotWorse(sorted[i], sorted[j]) {
      assert Pairwise(sorted, NotWorse);
    }
  }

  lemma {:induction false} ComesFirstAgrees(claims: seq<Claim>)
    ensures Agrees(claims, ComesFirst, NotWorse)
  {
    forall i | 0 <= i < |claims| ensures Leads(claims[i], claims[i + 1..], ComesFirst, NotWorse) {
    }
  }

  lemma {:induction false} SortKeepsAnchorsApart(claims: seq<Claim>)
    requires DistinctAnchors(claims)
    ensures DistinctAnchors(SortClaims(claims))
  {
    SortKeepsPairs(claims, ComesFirst, HaveOwnAnchors);
    var sorted := SortClaims(claims);
    forall i, j | 0 <= i < j < |sorted| ensures sorted[i].anchor != sorted[j].anchor {
      assert Pairwise(sorted, HaveOwnAnchors);
    }
  }

  // ---------------------------------------------------------------------------------------------
  // Claims partition the evidence
  // ---------------------------------------------------------------------------------------------

  /** The drafts of all anchors. */
  function AllDrafts(sources: seq<Source>, cs: seq<Contradiction>, subqueries: nat): seq<Claim> {
    Drafts(sources, AnchorsOf(sources), cs, subqueries)
  }

  /** What `_build_claims` returns, for any contradictions. */
  function Claims(sources: seq<Source>, cs: seq<Contradiction>, subqueries: nat): seq<Claim> {
    Renumbered(SortClaims(AllDrafts(sources, cs, subqueries)))
  }

  lemma {:induction false} DraftsFit(sources: seq<Source>, cs: seq<Contradiction>, subqueries: nat)
    ensures var drafts, anchors := AllDrafts(sources, cs, subqueries), AnchorsOf(sources);
      && |drafts| == |anchors|
      && forall i :: 0 <= i < |drafts| ==> drafts[i].anchor == anchors[i] && Fits(sources, cs, drafts[i])
  {
    var anchors, drafts := AnchorsOf(sources), AllDrafts(sources, cs, subqueries);
    AnchorsAreDistinct(sources);
    forall i | 0 <= i < |drafts| ensures drafts[i].anchor == anchors[i] && Fits(sources, cs, drafts[i]) {
      assert anchors[i] in anchors;
      ClaimFits(sources, i + 1, anchors[i], cs, subqueries);
      DraftAt(sources, anchors, cs, subqueries, i);
    }
  }

  /** Sorting and renumbering keep what every claim satisfies. */
  lemma {:induction false} SortingKeepsFit(sources: seq<Source>, cs: seq<Contradiction>, drafts: seq<Claim>)
    requires AllFit(sources, cs, drafts) && DistinctAnchors(drafts)
    ensures var claims := Renumbered(SortClaims(drafts));
      |claims| == |drafts| && AllFit(sources, cs, claims) && DistinctAnchors(claims) && Ranked(claims)
  {
    var sorted := SortClaims(drafts);
    SortedClaims(drafts);
    SortKeepsAnchorsApart(drafts);
    forall i | 0 <= i < |sorted| ensures Fits(sources, cs, Renumbered(sorted)[i]) {
      assert sorted[i] in sorted;
      var k :| 0 <= k < |drafts| && drafts[k] == sorted[i];
      FitsIgnoresNumber(sources, cs, sorted[i], i + 1);
    }
  }

  lemma {:induction false} ClaimsFit(sources: seq<Source>, cs: seq<Contradiction>, subqueries: nat)
    ensures var claims := Claims(sources, cs, subqueries);
      && |claims| == |AnchorsOf(sources)|
      && AllFit(sources, cs, claims) && DistinctAnchors(claims) && Ranked(claims)
  {
    AnchorsAreDistinct(sources);
    DraftsFit(sources, cs, subqueries);
    SortingKeepsFit(sources, cs, AllDrafts(sources, cs, subqueries));
  }

  lemma {:induction false} NamedAreKnown(cs: seq<Contradiction>, ids: set<SourceId>)
    requires forall k :: 0 <= k < |cs| ==> cs[k].left <= ids && cs[k].right <= ids
    ensures Named(cs) <= ids
  {
    if cs != [] {
      NamedAreKnown(cs[..|cs| - 1], ids);
    }
  }

  /** With the contradictions found among the sources themselves, opposition names known sources. */
  lemma {:induction false} OppositionIsGrounded(sources: seq<Source>, subqueries: nat, i: nat)
    requires i < |Claims(sources, Contradictions(sources, CONTRADICTION_RULES), subqueries)|
    ensures Claims(sources, Contradictions(sources, CONTRADICTION_RULES), subqueries)[i].oppose <= IdsOf(sources)
  {
    var cs := Contradictions(sources, CONTRADICTION_RULES);
    ContradictionsAreGrounded(sources, CONTRADICTION_RULES);
    NamedAreKnown(cs, IdsOf(sources));
    ClaimsFit(sources, cs, subqueries);
    assert Fits(sources, cs, Claims(sources, cs, subqueries)[i]);
  }

  /** Each anchor in use has its claim. */
  lemma {:induction false} AnchorHasClaim(
    sources: seq<Source>, cs: seq<Contradiction>, subqueries: nat, a: Anchor)
    returns (i: nat)
    requires a in AnchorsOf(sources)
    ensures i < |Claims(sources, cs, subqueries)| && Claims(sources, cs, subqueries)[i].anchor == a
  {
    var anchors, drafts := AnchorsOf(sources), AllDrafts(sources, cs, subqueries);
    var k :| 0 <= k < |anchors| && anchors[k] == a;
    DraftsFit(sources, cs, subqueries);
    SortedClaims(drafts);
    var sorted := SortClaims(drafts);
    assert drafts[k] in sorted;
    i :| 0 <= i < |sorted| && sorted[i] == drafts[k];
  }

  lemma {:induction false} SharedIdSharesAnchor(sources: seq<Source>, a: Anchor, b: Anchor, id: SourceId)
    requires UniqueIds(sources) && id in IdsOf(GroupOf(sources, a)) && id in IdsOf(GroupOf(sources, b))
    ensures a == b
  {
    GroupMembers(sources, a);
    GroupMembers(sources, b);
    var s :| s in GroupOf(sources, a) && s.id == id;
    var t :| t in GroupOf(sources, b) && t.id == id;
    var i :| 0 <= i < |sources| && sources[i] == s;
    var j :| 0 <= j < |sources| && sources[j] == t;
    assert i == j;
  }

  /** With unique source ids, the supports of different claims are disjoint. */
  lemma {:induction false} SupportsAreDisjoint(
    sources: seq<Source>, cs: seq<Contradiction>, subqueries: nat, i: nat, j: nat)
    requires UniqueIds(sources) && i < j < |Claims(sources, cs, subqueries)|
    ensures Elements(Claims(sources, cs, subqueries)[i].support) !! Elements(Claims(sources, cs, subqueries)[j].support)
  {
    ClaimsFit(sources, cs, subqueries);
    var c, d := Claims(sources, cs, subqueries)[i], Claims(sources, cs, subqueries)[j];
    assert Fits(sources, cs, c) && Fits(sources, cs, d);
    forall id | id in Elements(c.support) ensures id !in Elements(d.support) {
      if id in Elements(d.support) {
        SharedIdSharesAnchor(sources, c.anchor, d.anchor, id);
      }
    }
  }

  /** The ids that collection hands out, S1 onwards in selection order. */
  function Numbered(sources: seq<Source>): seq<Source> {
    seq(|sources|, i requires 0 <= i < |sources| => sources[i].(id := i + 1))
  }

  /** Collection numbers the sources, so its claims always have disjoint supports. */
  lemma {:induction false} NumberedSupportsAreDisjoint(
    sources: seq<Source>, cs: seq<Contradiction>, subqueries: nat, i: nat, j: nat)
    requires i < j < |Claims(Numbered(sources), cs, subqueries)|
    ensures var claims := Claims(Numbered(sources), cs, subqueries);
      Elements(claims[i].support) !! Elements(claims[j].support)
  {
    SupportsAreDisjoint(Numbered(sources), cs, subqueries, i, j);
  }

  /** Every source lands in the claim of its own anchor, where it either supports or opposes, and never both. */
  lemma {:induction false} EverySourceTakesASide(
    sources: seq<Source>, cs: seq<Contradiction>, subqueries: nat, s: Source)
    requires s in sources
    ensures var claims := Claims(sources, cs, subqueries);
      exists i :: 0 <= i < |claims| &&
        claims[i].anchor == s.anchor && (s.id in claims[i].support <==> s.id !in claims[i].oppose)
  {
    ClaimsFit(sources, cs, subqueries);
    GroupMembers(sources, s.anchor);
    AnchorsAreDistinct(sources);
    assert s in GroupOf(sources, s.anchor);
    assert s.anchor in AnchorsOf(sources);
    var claims := Claims(sources, cs, subqueries);
    var i := AnchorHasClaim(sources, cs, subqueries, s.anchor);
    assert Fits(sources, cs, claims[i]);
    assert s.id in IdsOf(GroupOf(sources, s.anchor));
    assert s.id in Elements(claims[i].support) <==> s.id in claims[i].support;
  }

  // ---------------------------------------------------------------------------------------------
  // Synthesis
  // ---------------------------------------------------------------------------------------------

  function CountStatus(claims: seq<Claim>, st: ClaimStatus): nat {
    if claims == [] then 0 else (if claims[0].status == st then 1 else 0) + CountStatus(claims[1..], st)
  }

  function SumScores(claims: seq<Claim>): real {
    if claims == [] then 0.0 else claims[0].score + SumScores(claims[1..])
  }

  function AverageScore(claims: seq<Claim>): real {
    if claims == [] then 0.0 else Round2(Quotient(SumScores(claims), |claims|))
  }

  function SupportRatio(claims: seq<Claim>): real { Quotient(CountStatus(claims, Supported) as real, Max(|claims|, 1)) }

  function Coverage(sources: nat, subqueries: nat): real { MinReal(Quotient(sources as real, Max(subqueries, 1)), 1.0) }

  function Diversity(files: nat): real { MinReal(files as real / 3.0, 1.0) }

  function Penalty(contradictions: nat, mixed: nat): real { 0.10 * contradictions as real + 0.08 * mixed as real }

  function Combine(average: real, coverage: real, diversity: real, supportRatio: real, penalty: real): real {
    MaxReal(Round2(0.45 * average + 0.25 * coverage + 0.15 * diversity + 0.15 * supportRatio - penalty), 0.0)
  }

  function OverallScore(claims: seq<Claim>, sources: seq<Source>, subqueries: nat, contradictions: nat): real {
    Combine(AverageScore(claims), Coverage(|sources|, subqueries), Diversity(FileCount(sources)), SupportRatio(claims),
            Penalty(contradictions, CountStatus(claims, Mixed)))
  }

  lemma {:induction false} QuotientInUnit(a: real, n: nat)
    requires n > 0 && 0.0 <= a <= n as real
    ensures InUnit(Quotient(a, n))
  {
    var q := Quotient(a, n);
    assert q * n as real == a;
    if q > 1.0 {
      Grow(q, n as real);
    }
  }

  lemma {:induction false} Grow(q: real, n: real)
    requires q > 1.0 && n > 0.0
    ensures q * n > n
  {
    assert (q - 1.0) * n > 0.0;
  }

  lemma {:induction false} ScoresAddUp(claims: seq<Claim>)
    requires forall i :: 0 <= i < |claims| ==> InUnit(claims[i].score)
    ensures 0.0 <= SumScores(claims) <= |claims| as real
  {
    if claims != [] {
      ScoresAddUp(claims[1..]);
      assert InUnit(claims[0].score);
    }
  }

  /** Supported, mixed and weak claims are all the claims. */
  lemma {:induction false} StatusesPartition(claims: seq<Claim>)
    ensures CountStatus(claims, Supported) + CountStatus(claims, Mixed) + CountStatus(claims, Weak) == |claims|
  {
    if claims != [] {
      StatusesPartition(claims[1..]);
    }
  }

  lemma {:induction false} AverageIsBounded(claims: seq<Claim>)
    requires forall i :: 0 <= i < |claims| ==> InUnit(claims[i].score)
    ensures InUnit(AverageScore(claims))
  {
    ScoresAddUp(claims);
    if claims != [] {
      QuotientInUnit(SumScores(claims), |claims|);
      RoundKeepsUnit(Quotient(SumScores(claims), |claims|));
    }
  }

  lemma {:induction false} RatioIsBounded(claims: seq<Claim>)
    ensures InUnit(SupportRatio(claims))
  {
    StatusesPartition(claims);
    QuotientInUnit(CountStatus(claims, Supported) as real, Max(|claims|, 1));
  }

  lemma {:induction false} CombinedIsBounded(average: real, coverage: real, diversity: real, ratio: real, penalty: real)
    requires average <= 1.0 && coverage <= 1.0 && diversity <= 1.0 && ratio <= 1.0 && penalty >= 0.0
    ensures InUnit(Combine(average, coverage, diversity, ratio, penalty))
  {
    RoundKeepsUnit(0.45 * average + 0.25 * coverage + 0.15 * diversity + 0.15 * ratio - penalty);
  }

  lemma {:induction false} CombinedPartsAreBounded(
    average: real, ratio: real, sources: nat, subqueries: nat, files: nat, contradictions: nat, mixed: nat)
    requires average <= 1.0 && ratio <= 1.0
    ensures InUnit(Combine(average, Coverage(sources, subqueries), Diversity(files), ratio,
      Penalty(contradictions, mixed)))
  {
    CombinedIsBounded(average, Coverage(sources, subqueries), Diversity(files), ratio, Penalty(contradictions, mixed));
  }

  lemma {:induction false} ScoresAreBounded(sources: seq<Source>, cs: seq<Contradiction>, subqueries: nat)
    ensures forall i :: 0 <= i < |Claims(sources, cs, subqueries)| ==> InUnit(Claims(sources, cs, subqueries)[i].score)
  {
    ClaimsFit(sources, cs, subqueries);
    var claims := Claims(sources, cs, subqueries);
    forall i | 0 <= i < |claims| ensures InUnit(claims[i].score) {
      assert Fits(sources, cs, claims[i]);
    }
  }

  /** The overall score lies between zero and one. */
  lemma {:induction false} OverallScoreIsBounded(
    sources: seq<Source>, cs: seq<Contradiction>, subqueries: nat, contradictions: nat)
    ensures InUnit(OverallScore(Claims(sources, cs, subqueries), sources, subqueries, contradictions))
  {
    var claims := Claims(sources, cs, subqueries);
    ScoresAreBounded(sources, cs, subqueries);
    AverageIsBounded(claims);
    RatioIsBounded(claims);
    CombinedPartsAreBounded(AverageScore(claims), SupportRatio(claims), |sources|, subqueries,
      FileCount(sources), contradictions, CountStatus(claims, Mixed));
  }

  // ---------------------------------------------------------------------------------------------
  // The loops
  // ---------------------------------------------------------------------------------------------

  /** The grouping dictionary: its keys in insertion order, and its lists. */
  method GroupByAnchor(sources: seq<Source>) returns (order: seq<Anchor>, grouped: map<Anchor, seq<Source>>)
    ensures order == AnchorsOf(sources)
    ensures forall k :: 0 <= k < |order| ==>
      order[k] in grouped && grouped[order[k]] == GroupOf(sources, order[k]) && grouped[order[k]] != []
  {
    order, grouped := [], map[];
    for i := 0 to |sources|
      invariant order == AnchorsOf(sources[..i])
      invariant forall a :: a in grouped <==> a in order
      invariant forall a :: a in grouped ==> grouped[a] == GroupOf(sources[..i], a)
    {
      assert sources[..i + 1][..i] == sources[..i];
      AnchorsAreDistinct(sources[..i]);
      var a := sources[i].anchor;
      if a !in grouped {
        order := order + [a];
        grouped := grouped[a := []];
      }
      grouped := grouped[a := grouped[a] + [sources[i]]];
    }
    assert sources[..|sources|] == sources;
    AnchorsAreDistinct(sources);
    forall k | 0 <= k < |order| ensures order[k] in grouped && GroupOf(sources, order[k]) != [] {
      assert order[k] in order;
    }
  }

  method DedupeQueries(queries: seq<Query>) returns (ordered: seq<Query>)
    ensures ordered == Dedupe(queries)
  {
    ordered := [];
    var seen: set<Query> := {};
    for i := 0 to |queries|
      invariant ordered == Dedupe(queries[..i])
      invariant forall q :: q in seen <==> q in ordered
    {
      assert queries[..i + 1][..i] == queries[..i];
      var q := Stripped(queries[i]);
      if q.text != "" && q !in seen {
        seen := seen + {q};
        ordered := ordered + [q];
      }
    }
    assert queries[..|queries|] == queries;
  }

  /** The stripped forms of the queries, blanks apart. */
  ghost function StrippedForms(queries: seq<Query>): set<Query> {
    set q | q in queries && Stripped(q).text != "" :: Stripped(q)
  }

  /** Deduplication keeps each stripped query that is not blank, once, and nothing else. */
  lemma {:induction false} DedupeKeepsAll(queries: seq<Query>)
    ensures NoDup(Dedupe(queries))
    ensures Elements(Dedupe(queries)) == StrippedForms(queries)
  {
    if queries != [] {
      var n := |queries| - 1;
      DedupeKeepsAll(queries[..n]);
      assert queries == queries[..n] + [queries[n]];
      var last := Stripped(queries[n]);
      assert StrippedForms(queries) == StrippedForms(queries[..n]) + if last.text == "" then {} else {last};
      var earlier := Dedupe(queries[..n]);
      assert last in Elements(earlier) <==> last in earlier;
      assert Elements(earlier + [last]) == Elements(earlier) + {last};
    }
  }

  /** Deduplicating again changes nothing. */
  lemma {:induction false} DedupeIsIdempotent(queries: seq<Query>)
    ensures Dedupe(Dedupe(queries)) == Dedupe(queries)
  {
    if queries != [] {
      var earlier := Dedupe(queries[..|queries| - 1]);
      var last := Stripped(queries[|queries| - 1]);
      DedupeIsIdempotent(queries[..|queries| - 1]);
      StrippedTwice(queries[|queries| - 1]);
      assert (earlier + [last])[..|earlier|] == earlier;
    }
  }

  lemma {:induction false} StrippedTwice(q: Query)
    ensures Stripped(Stripped(q)) == Stripped(q)
  {
    StripLeftEnds(q.text);
    StripRightEnds(StripLeft(q.text));
  }

  lemma {:induction false} StripLeftEnds(text: string)
    ensures var r := StripLeft(text); r != "" ==> r[0] !in WHITESPACE
  {
    if text != "" && text[0] in WHITESPACE {
      StripLeftEnds(text[1..]);
    }
  }

  /** Stripping the right keeps a prefix that ends in no whitespace. */
  lemma {:induction false} StripRightEnds(text: string)
    ensures var r := StripRight(text); r <= text && StripRight(r) == r && (r != "" ==> r[0] == text[0])
  {
    if text != "" && text[|text| - 1] in WHITESPACE {
      StripRightEnds(text[..|text| - 1]);
    }
  }

  method BuildClaim(
    number: nat, anchor: Anchor, group: seq<Source>, cs: seq<Contradiction>, subqueries: nat,
    ghost sources: seq<Source>)
    returns (c: Claim)
    requires group != [] && group == GroupOf(sources, anchor)
    ensures c == DraftClaim(sources, number, anchor, cs, subqueries)
  {
    var ordered := SortByStrength(group);
    var st := SettleGroup(ordered, cs);
    var backing := Supporting(ordered, st.support);
    var queries := DedupeQueries(AllQueries(backing));
    var supportScore := if backing == [] then 0.0 else Quotient(SumVerification(backing), |backing|);
    var queryCoverage := Quotient(|queries| as real, Max(subqueries, 1));
    var score := ClaimScore(supportScore, queryCoverage, FileCount(backing), |backing|, |st.oppose|);
    c := Claim(number, anchor, IdList(backing), st.oppose, queries, StatusFor(st.oppose != {}, score), score);
  }

  /** The loop over the groups. */
  method BuildDrafts(
    order: seq<Anchor>, grouped: map<Anchor, seq<Source>>, cs: seq<Contradiction>, subqueries: nat,
    ghost sources: seq<Source>)
    returns (drafts: seq<Claim>)
    requires forall k :: 0 <= k < |order| ==>
      order[k] in grouped && grouped[order[k]] == GroupOf(sources, order[k]) && grouped[order[k]] != []
    ensures drafts == Drafts(sources, order, cs, subqueries)
  {
    drafts := [];
    for i := 0 to |order|
      invariant drafts == Drafts(sources, order[..i], cs, subqueries)
    {
      assert order[..i + 1][..i] == order[..i];
      var c := BuildClaim(i + 1, order[i], grouped[order[i]], cs, subqueries, sources);
      drafts := drafts + [c];
    }
    assert order[..|order|] == order;
  }

  method BuildClaims(sources: seq<Source>, cs: seq<Contradiction>, subqueries: nat) returns (claims: seq<Claim>)
    ensures claims == Claims(sources, cs, subqueries)
  {
    var order, grouped := GroupByAnchor(sources);
    var drafts := BuildDrafts(order, grouped, cs, subqueries, sources);
    claims := Renumbered(SortClaims(drafts));
  }
}
