/**
 What the scores of claims and answers are made of (nexus_research.py). Each score is within half a
 hundredth of a sum recomputed from the claim's own lists, clamped to the unit interval, and moves with
 each of its parts as it should.
 */
module EvidenceScores {
  import opened Common
  import opened Sorting
  import opened EvidenceSelection
  import opened EvidenceClaims
  import EvidenceRetrieval

  // ---------------------------------------------------------------------------------------------
  // Rounding and clamping
  // ---------------------------------------------------------------------------------------------

  ghost predicate Near(x: real, y: real) { x - 0.005 <= y <= x + 0.005 }

  lemma {:induction false} RoundIsNear(x: real)
    ensures Near(x, Round2(x))
  {
    var y := x * 100.0;
    assert y.Floor as real <= y < y.Floor as real + 1.0;
  }

  /** Rounding gives a whole number of hundredths, a nearest one, and the even one of two that are equally near. */
  lemma {:induction false} RoundIsNearest(x: real) returns (n: int)
    ensures Round2(x) * 100.0 == n as real
    ensures n as real - 0.5 <= x * 100.0 <= n as real + 0.5
    ensures x * 100.0 == n as real - 0.5 || x * 100.0 == n as real + 0.5 ==> n % 2 == 0
  {
    var y := x * 100.0;
    var f := y.Floor;
    n := if y - f as real < 0.5 then f else if y - f as real > 0.5 then f + 1 else if f % 2 == 0 then f else f + 1;
  }

  /** A whole number of hundredths. */
  ghost predicate IsHundredths(x: real) { (x * 100.0).Floor as real == x * 100.0 }

  lemma {:induction false} WholeIsHundredths(x: real, n: int)
    requires x * 100.0 == n as real
    ensures IsHundredths(x)
  {
  }

  lemma {:induction false} ClampKeepsHundredths(x: real)
    requires IsHundredths(x)
    ensures IsHundredths(MaxReal(MinReal(x, 1.0), 0.0))
    ensures IsHundredths(MinReal(x, 1.0)) && IsHundredths(MaxReal(x, 0.0))
  {
    WholeIsHundredths(0.0, 0);
    WholeIsHundredths(1.0, 100);
  }

  lemma {:induction false} RoundGivesHundredths(x: real)
    ensures var y := Round2(x);
      && IsHundredths(y) && IsHundredths(MaxReal(MinReal(y, 1.0), 0.0))
      && IsHundredths(MinReal(y, 1.0)) && IsHundredths(MaxReal(y, 0.0))
  {
    var n := RoundIsNearest(x);
    WholeIsHundredths(Round2(x), n);
    ClampKeepsHundredths(Round2(x));
  }

  lemma {:induction false} RoundIsMonotone(x: real, y: real)
    requires x <= y
    ensures Round2(x) <= Round2(y)
  {
    var a, b := x * 100.0, y * 100.0;
    assert a.Floor <= b.Floor;
  }

  function Clamped(x: real): real { if x < 0.0 then 0.0 else if x > 1.0 then 1.0 else x }

  lemma {:induction false} ClampKeepsNear(x: real, y: real)
    requires Near(x, y)
    ensures Near(Clamped(x), MaxReal(MinReal(y, 1.0), 0.0))
  {
  }

  // ---------------------------------------------------------------------------------------------
  // A claim's score
  // ---------------------------------------------------------------------------------------------

  /** The sum behind a claim's score: `files`, `n` supporters and `k` opponents. */
  ghost function ClaimSum(mean: real, coverage: real, files: nat, n: nat, k: nat): real {
    0.5 * mean + 0.25 * coverage
    + (if files >= 2 then 0.15 else 0.075 * files as real)
    + (if n >= 3 then 0.2 else 0.1 * n as real - 0.1)
    - (if k >= 3 then 0.35 else 0.15 * k as real)
  }

  lemma {:induction false} ClaimScoreIsNear(mean: real, coverage: real, files: nat, n: nat, k: nat)
    ensures Near(Clamped(ClaimSum(mean, coverage, files, n, k)), ClaimScore(mean, coverage, files, n, k))
    ensures IsHundredths(ClaimScore(mean, coverage, files, n, k))
  {
    RoundGivesHundredths(ClaimSum(mean, coverage, files, n, k));
    var sum := ClaimSum(mean, coverage, files, n, k);
    RoundIsNear(sum);
    ClampKeepsNear(sum, Round2(sum));
  }

  /**
   One opponent more takes fifteen hundredths off the sum for the first two, five hundredths for the
   third, and nothing after it.
   */
  lemma {:induction false} OppositionCosts(mean: real, coverage: real, files: nat, n: nat, k: nat)
    ensures ClaimSum(mean, coverage, files, n, k + 1)
            == ClaimSum(mean, coverage, files, n, k) - (if k < 2 then 0.15 else if k == 2 then 0.05 else 0.0)
    ensures ClaimScore(mean, coverage, files, n, k + 1) <= ClaimScore(mean, coverage, files, n, k)
  {
    RoundIsMonotone(ClaimSum(mean, coverage, files, n, k + 1), ClaimSum(mean, coverage, files, n, k));
  }

  /** A stronger mean, more queries, more files or more supporters never lower a claim's score. */
  lemma {:induction false} SupportNeverHurts(
    mean: real, coverage: real, files: nat, n: nat, mean': real, coverage': real, files': nat, n': nat, k: nat)
    requires mean <= mean' && coverage <= coverage' && files <= files' && n <= n'
    ensures ClaimScore(mean, coverage, files, n, k) <= ClaimScore(mean', coverage', files', n', k)
  {
    RoundIsMonotone(ClaimSum(mean, coverage, files, n, k), ClaimSum(mean', coverage', files', n', k));
  }

  // ---------------------------------------------------------------------------------------------
  // The score of a claim, from its own lists
  // ---------------------------------------------------------------------------------------------

  ghost function TotalVerification(bs: seq<Source>): real {
    if bs == [] then 0.0 else TotalVerification(bs[..|bs| - 1]) + bs[|bs| - 1].verification
  }

  lemma {:induction false} SumFront(b: Source, bs: seq<Source>)
    ensures TotalVerification([b] + bs) == b.verification + TotalVerification(bs)
  {
    if bs == [] {
      assert ([b] + bs)[..0] == [];
    } else {
      var n := |bs| - 1;
      assert ([b] + bs)[..n + 1] == [b] + bs[..n];
      SumFront(b, bs[..n]);
    }
  }

  lemma {:induction false} SumsAgree(bs: seq<Source>)
    ensures SumVerification(bs) == TotalVerification(bs)
  {
    if bs != [] {
      SumsAgree(bs[1..]);
      SumFront(bs[0], bs[1..]);
      assert bs == [bs[0]] + bs[1..];
    }
  }

  /** What a claim's support stands for: its sources, strongest first, each once. */
  ghost predicate IsBackedBy(sources: seq<Source>, c: Claim, bs: seq<Source>) {
    && |bs| == |c.support| > 0
    && (forall k :: 0 <= k < |bs| ==> bs[k] in sources && bs[k].id == c.support[k])
    && Pairwise(bs, AtLeastAsStrong)
    && NoDup(c.support)
  }

  /** The query, stripped and not blank, matched one of the sources. */
  ghost predicate IsAskedBy(q: Query, bs: seq<Source>) {
    q.text != "" && exists b, r :: b in bs && r in b.queries && Stripped(r) == q
  }

  lemma {:induction false} AllQueriesAreAsked(bs: seq<Source>, q: Query)
    ensures q in StrippedForms(AllQueries(bs)) <==> IsAskedBy(q, bs)
  {
    QueriesOfBackers(bs);
    if IsAskedBy(q, bs) {
      var b, r :| b in bs && r in b.queries && Stripped(r) == q;
      assert r in AllQueries(bs);
    }
  }

  lemma {:induction false} QueriesOfBackers(bs: seq<Source>)
    ensures forall r :: r in AllQueries(bs) <==> exists b :: b in bs && r in b.queries
  {
    if bs != [] {
      QueriesOfBackers(bs[1..]);
      assert bs == [bs[0]] + bs[1..];
    }
  }

  /** What a claim says of its backers. */
  ghost predicate ScoresAs(c: Claim, bs: seq<Source>, subqueries: nat)
    requires |bs| > 0
  {
    && IsHundredths(c.score)
    && NoDup(c.queries) && (forall q :: q in c.queries <==> IsAskedBy(q, bs))
    && Near(Clamped(ClaimSum(
         TotalVerification(bs) / |bs| as real, |c.queries| as real / Max(subqueries, 1) as real,
         |set b | b in bs :: b.file|, |bs|, |c.oppose|)), c.score)
  }

  lemma {:induction false} SupportingKeepsPairs(
    ordered: seq<Source>, support: set<SourceId>, rel: (Source, Source) -> bool)
    requires Pairwise(ordered, rel)
    ensures Pairwise(Supporting(ordered, support), rel)
  {
    if ordered != [] {
      var rest := Supporting(ordered[1..], support);
      SupportingKeepsPairs(ordered[1..], support, rel);
      SupportingMembers(ordered[1..], support);
      forall k | 0 <= k < |rest| ensures rel(ordered[0], rest[k]) {
        assert rest[k] in rest;
        var j :| 0 <= j < |ordered[1..]| && ordered[1..][j] == rest[k];
        assert ordered[j + 1] == rest[k];
      }
    }
  }

  lemma {:induction false} OwnIdsAreUnique(sources: seq<Source>)
    ensures Pairwise(sources, HaveOwnIds) <==> UniqueIds(sources)
  {
    if UniqueIds(sources) {
      forall i, j | 0 <= i < j < |sources| ensures HaveOwnIds(sources[i], sources[j]) {
      }
    }
    if Pairwise(sources, HaveOwnIds) {
      forall i, j | 0 <= i < j < |sources| ensures sources[i].id != sources[j].id {
        assert HaveOwnIds(sources[i], sources[j]);
      }
    }
  }

  lemma {:induction false} GroupKeepsUnique(sources: seq<Source>, anchor: Anchor)
    requires UniqueIds(sources)
    ensures UniqueIds(GroupOf(sources, anchor))
  {
    if sources != [] {
      var n := |sources| - 1;
      var earlier := GroupOf(sources[..n], anchor);
      GroupKeepsUnique(sources[..n], anchor);
      GroupMembers(sources[..n], anchor);
      forall k | 0 <= k < |earlier| ensures earlier[k].id != sources[n].id {
        assert earlier[k] in earlier;
        var j :| 0 <= j < n && sources[..n][j] == earlier[k];
      }
    }
  }

  ghost predicate HaveOwnIds(a: Source, b: Source) { a.id != b.id }

  lemma {:induction false} StrengthKeepsUnique(group: seq<Source>)
    requires UniqueIds(group)
    ensures UniqueIds(SortByStrength(group))
  {
    SortKeepsPairs(group, AtLeastAsStrong, HaveOwnIds);
    OwnIdsAreUnique(SortByStrength(group));
  }

  /** The backers of a group's claim. */
  ghost function BackersOf(sources: seq<Source>, anchor: Anchor, cs: seq<Contradiction>): seq<Source>
    requires GroupOf(sources, anchor) != []
  {
    var ordered := SortByStrength(GroupOf(sources, anchor));
    Supporting(ordered, Settled(ordered, cs).support)
  }

  lemma {:induction false} DraftIsBacked(
    sources: seq<Source>, number: nat, anchor: Anchor, cs: seq<Contradiction>, subqueries: nat)
    requires UniqueIds(sources) && GroupOf(sources, anchor) != []
    ensures IsBackedBy(sources, DraftClaim(sources, number, anchor, cs, subqueries), BackersOf(sources, anchor, cs))
  {
    var group := GroupOf(sources, anchor);
    var ordered := SortByStrength(group);
    var bs := BackersOf(sources, anchor, cs);
    GroupKeepsUnique(sources, anchor);
    StrengthKeepsUnique(group);
    SortMembers(group);
    OwnIdsAreUnique(ordered);
    SupportingKeepsPairs(ordered, Settled(ordered, cs).support, AtLeastAsStrong);
    SupportingKeepsPairs(ordered, Settled(ordered, cs).support, HaveOwnIds);
    OwnIdsAreUnique(bs);
    SupportingMembers(ordered, Settled(ordered, cs).support);
    GroupMembers(sources, anchor);
    SettledSplitsGroup(ordered, cs);
    SupportIsListed(ordered, Settled(ordered, cs).support);
    forall k | 0 <= k < |bs| ensures bs[k] in sources {
      assert bs[k] in bs;
    }
  }

  lemma {:induction false} DraftScores(
    sources: seq<Source>, number: nat, anchor: Anchor, cs: seq<Contradiction>, subqueries: nat)
    requires GroupOf(sources, anchor) != [] && BackersOf(sources, anchor, cs) != []
    ensures ScoresAs(DraftClaim(sources, number, anchor, cs, subqueries), BackersOf(sources, anchor, cs), subqueries)
  {
    var bs := BackersOf(sources, anchor, cs);
    var c := DraftClaim(sources, number, anchor, cs, subqueries);
    SumsAgree(bs);
    DedupeKeepsAll(AllQueries(bs));
    forall q ensures q in c.queries <==> IsAskedBy(q, bs) {
      AllQueriesAreAsked(bs, q);
      assert q in c.queries <==> q in Elements(c.queries);
    }
    ClaimScoreIsNear(TotalVerification(bs) / |bs| as real, |c.queries| as real / Max(subqueries, 1) as real,
                     |set b | b in bs :: b.file|, |bs|, |c.oppose|);
  }

  lemma {:induction false} DraftAnswers(
    sources: seq<Source>, number: nat, anchor: Anchor, cs: seq<Contradiction>, subqueries: nat)
    returns (bs: seq<Source>)
    requires UniqueIds(sources) && GroupOf(sources, anchor) != []
    ensures IsBackedBy(sources, DraftClaim(sources, number, anchor, cs, subqueries), bs)
    ensures ScoresAs(DraftClaim(sources, number, anchor, cs, subqueries), bs, subqueries)
  {
    bs := BackersOf(sources, anchor, cs);
    DraftIsBacked(sources, number, anchor, cs, subqueries);
    DraftScores(sources, number, anchor, cs, subqueries);
  }

  lemma {:induction false} NumberIsFree(sources: seq<Source>, c: Claim, bs: seq<Source>, subqueries: nat, number: nat)
    requires IsBackedBy(sources, c, bs) && ScoresAs(c, bs, subqueries)
    ensures IsBackedBy(sources, c.(number := number), bs) && ScoresAs(c.(number := number), bs, subqueries)
  {
  }

  /**
   Every claim answers for its lists: its support names distinct sources, strongest first; its queries
   are theirs, each once; and its score is within half a hundredth of the clamped sum of half their mean
   verification, a quarter of the share of subqueries, the spread over files and the number of
   supporters, less the cost of its opponents.
   */
  lemma {:induction false} ClaimAnswersForItsLists(
    sources: seq<Source>, cs: seq<Contradiction>, subqueries: nat, i: nat)
    returns (bs: seq<Source>)
    requires UniqueIds(sources) && i < |Claims(sources, cs, subqueries)|
    ensures IsBackedBy(sources, Claims(sources, cs, subqueries)[i], bs)
    ensures ScoresAs(Claims(sources, cs, subqueries)[i], bs, subqueries)
  {
    var drafts := AllDrafts(sources, cs, subqueries);
    var sorted, anchors := SortClaims(drafts), AnchorsOf(sources);
    SortedClaims(drafts);
    AnchorsAreDistinct(sources);
    assert sorted[i] in sorted;
    var k :| 0 <= k < |drafts| && drafts[k] == sorted[i];
    DraftAt(sources, anchors, cs, subqueries, k);
    assert anchors[k] in anchors;
    bs := DraftAnswers(sources, k + 1, anchors[k], cs, subqueries);
    NumberIsFree(sources, drafts[k], bs, subqueries, i + 1);
  }

  // ---------------------------------------------------------------------------------------------
  // The score of an answer
  // ---------------------------------------------------------------------------------------------

  /** The sum behind an answer's score, for the rounded mean of its claims' scores. */
  ghost function AnswerSum(
    average: real, coverage: real, files: nat, share: real, contradictions: nat, mixed: nat): real {
    0.45 * average + 0.25 * MinReal(coverage, 1.0)
    + (if files >= 3 then 0.15 else 0.05 * files as real)
    + 0.15 * share - 0.1 * contradictions as real - 0.08 * mixed as real
  }

  ghost function TotalScore(claims: seq<Claim>): real {
    if claims == [] then 0.0 else TotalScore(claims[..|claims| - 1]) + claims[|claims| - 1].score
  }

  lemma {:induction false} TotalFront(c: Claim, claims: seq<Claim>)
    ensures TotalScore([c] + claims) == c.score + TotalScore(claims)
  {
    if claims == [] {
      assert ([c] + claims)[..0] == [];
    } else {
      var n := |claims| - 1;
      assert ([c] + claims)[..n + 1] == [c] + claims[..n];
      TotalFront(c, claims[..n]);
    }
  }

  lemma {:induction false} TotalsAgree(claims: seq<Claim>)
    ensures SumScores(claims) == TotalScore(claims)
  {
    if claims != [] {
      TotalsAgree(claims[1..]);
      TotalFront(claims[0], claims[1..]);
      assert claims == [claims[0]] + claims[1..];
    }
  }

  lemma {:induction false} StatusesAreCounted(claims: seq<Claim>, st: ClaimStatus)
    ensures CountStatus(claims, st) == |Positions(claims, (c: Claim) => c.status == st)|
  {
    if claims != [] {
      StatusesAreCounted(claims[1..], st);
      PositionsFront(claims[0], claims[1..], (c: Claim) => c.status == st);
      assert claims == [claims[0]] + claims[1..];
    }
  }

  /**
   The answer's score is within half a hundredth of the sum of the claims' mean score, itself rounded, the
   sources per subquery, the spread over files and the share of supported claims, less a tenth for each
   contradiction and eight hundredths for each mixed claim, or of zero when that is negative.
   */
  lemma {:induction false} AnswerScoreIsNear(
    claims: seq<Claim>, sources: seq<Source>, subqueries: nat, contradictions: nat)
    returns (average: real)
    ensures if claims == [] then average == 0.0 else Near(TotalScore(claims) / |claims| as real, average)
    ensures IsHundredths(average) && IsHundredths(OverallScore(claims, sources, subqueries, contradictions))
    ensures var share := |Positions(claims, (c: Claim) => c.status == Supported)| as real / Max(|claims|, 1) as real;
      var mixed := |Positions(claims, (c: Claim) => c.status == Mixed)|;
      var sum := AnswerSum(average, |sources| as real / Max(subqueries, 1) as real, |set s | s in sources :: s.file|,
                           share, contradictions, mixed);
      Near(MaxReal(sum, 0.0), OverallScore(claims, sources, subqueries, contradictions))
  {
    average := AverageScore(claims);
    TotalsAgree(claims);
    StatusesAreCounted(claims, Supported);
    StatusesAreCounted(claims, Mixed);
    if claims != [] {
      RoundIsNear(Quotient(SumScores(claims), |claims|));
      RoundGivesHundredths(Quotient(SumScores(claims), |claims|));
    } else {
      WholeIsHundredths(average, 0);
    }
    CombineIsNear(average, |sources| as real / Max(subqueries, 1) as real, FileCount(sources), SupportRatio(claims),
                  contradictions, CountStatus(claims, Mixed));
  }

  lemma {:induction false} CombineIsNear(
    average: real, coverage: real, files: nat, share: real, contradictions: nat, mixed: nat)
    ensures Near(MaxReal(AnswerSum(average, coverage, files, share, contradictions, mixed), 0.0),
                 Combine(average, MinReal(coverage, 1.0), Diversity(files), share, Penalty(contradictions, mixed)))
    ensures IsHundredths(
              Combine(average, MinReal(coverage, 1.0), Diversity(files), share, Penalty(contradictions, mixed)))
  {
    RoundGivesHundredths(AnswerSum(average, coverage, files, share, contradictions, mixed));
    RoundIsNear(AnswerSum(average, coverage, files, share, contradictions, mixed));
  }

  /** Better parts never lower an answer's score, and a higher penalty never raises it. */
  lemma {:induction false} AnswerScoreMoves(
    average: real, coverage: real, diversity: real, share: real, penalty: real,
    average': real, coverage': real, diversity': real, share': real, penalty': real)
    requires average <= average' && coverage <= coverage' && diversity <= diversity' && share <= share'
    requires penalty >= penalty'
    ensures Combine(average, coverage, diversity, share, penalty)
            <= Combine(average', coverage', diversity', share', penalty')
  {
    RoundIsMonotone(0.45 * average + 0.25 * coverage + 0.15 * diversity + 0.15 * share - penalty,
                    0.45 * average' + 0.25 * coverage' + 0.15 * diversity' + 0.15 * share' - penalty');
  }

  lemma {:induction false} RoundKeepsEnds()
    ensures Round2(0.0) == 0.0 && Round2(1.0) == 1.0
  {
    assert (1.0 * 100.0).Floor == 100 && (0.0 * 100.0).Floor == 0;
  }

  /** Full marks in every part and no penalty give one. */
  lemma {:induction false} FullMarksGiveOne()
    ensures Combine(1.0, 1.0, 1.0, 1.0, 0.0) == 1.0
  {
    RoundKeepsEnds();
    assert 0.45 * 1.0 + 0.25 * 1.0 + 0.15 * 1.0 + 0.15 * 1.0 - 0.0 == 1.0;
  }

  /** Nothing in any part gives zero. */
  lemma {:induction false} NoMarksGiveZero(penalty: real)
    requires penalty >= 0.0
    ensures Combine(0.0, 0.0, 0.0, 0.0, penalty) == 0.0
  {
    var sum := 0.45 * 0.0 + 0.25 * 0.0 + 0.15 * 0.0 + 0.15 * 0.0 - penalty;
    RoundIsMonotone(sum, 0.0);
    RoundKeepsEnds();
  }

  // ---------------------------------------------------------------------------------------------
  // The score of a source
  // ---------------------------------------------------------------------------------------------

  /** The sum behind a source's verification score. */
  ghost function SourceSum(overlap: real, coverage: real, signal: real, structured: bool): real {
    0.45 * overlap + 0.3 * coverage + 0.25 * MinReal(signal, 1.0) + if structured then 0.15 else 0.0
  }

  /** The shares behind it: of question terms, of subqueries, and the retrieval score for each subquery that hit. */
  ghost function OverlapShare(overlap: nat, terms: nat): real {
    if terms == 0 then 0.5 else overlap as real / terms as real
  }

  /** A source's score is within half a hundredth of the sum of its shares, or of one when that is more. */
  lemma {:induction false} SourceScoreIsNear(
    overlap: nat, terms: nat, hits: nat, subqueries: nat, retrieval: real, structured: bool)
    ensures var sum := SourceSum(OverlapShare(overlap, terms), hits as real / Max(subqueries, 1) as real,
                                 retrieval / Max(hits, 1) as real, structured);
      Near(MinReal(sum, 1.0),
           EvidenceRetrieval.VerificationScore(overlap, terms, hits, subqueries, retrieval, structured))
    ensures IsHundredths(EvidenceRetrieval.VerificationScore(overlap, terms, hits, subqueries, retrieval, structured))
  {
    RoundGivesHundredths(SourceSum(OverlapShare(overlap, terms), Quotient(hits as real, Max(subqueries, 1)),
                                   Quotient(retrieval, Max(hits, 1)), structured));
    RoundIsNear(SourceSum(OverlapShare(overlap, terms), Quotient(hits as real, Max(subqueries, 1)),
                          Quotient(retrieval, Max(hits, 1)), structured));
  }

  /** More overlap, a higher retrieval score or structure never lower a source's score. */
  lemma {:induction false} SourceScoreMoves(
    overlap: nat, overlap': nat, terms: nat, hits: nat, subqueries: nat, retrieval: real, retrieval': real,
    structured: bool, structured': bool)
    requires overlap <= overlap' && retrieval <= retrieval' && (structured ==> structured')
    ensures EvidenceRetrieval.VerificationScore(overlap, terms, hits, subqueries, retrieval, structured)
            <= EvidenceRetrieval.VerificationScore(overlap', terms, hits, subqueries, retrieval', structured')
  {
    OverlapGrows(overlap, overlap', terms);
    QuotientGrows(retrieval, retrieval', Max(hits, 1));
    SumMoves(OverlapShare(overlap, terms), OverlapShare(overlap', terms), Quotient(hits as real, Max(subqueries, 1)),
             Quotient(retrieval, Max(hits, 1)), Quotient(retrieval', Max(hits, 1)), structured, structured');
    ScoreIsRoundedSum(overlap, terms, hits, subqueries, retrieval, structured);
    ScoreIsRoundedSum(overlap', terms, hits, subqueries, retrieval', structured');
  }

  lemma {:induction false} OverlapGrows(overlap: nat, overlap': nat, terms: nat)
    requires overlap <= overlap'
    ensures OverlapShare(overlap, terms) <= OverlapShare(overlap', terms)
  {
    if terms > 0 {
      QuotientGrows(overlap as real, overlap' as real, terms);
    }
  }

  lemma {:induction false} ScoreIsRoundedSum(
    overlap: nat, terms: nat, hits: nat, subqueries: nat, retrieval: real, structured: bool)
    ensures EvidenceRetrieval.VerificationScore(overlap, terms, hits, subqueries, retrieval, structured)
            == MinReal(Round2(SourceSum(OverlapShare(overlap, terms), Quotient(hits as real, Max(subqueries, 1)),
                                        Quotient(retrieval, Max(hits, 1)), structured)), 1.0)
  {
  }

  lemma {:induction false} QuotientGrows(a: real, b: real, n: nat)
    requires a <= b && n > 0
    ensures Quotient(a, n) <= Quotient(b, n)
  {
    var d := Quotient(b, n) - Quotient(a, n);
    assert d * n as real == b - a;
    if d < 0.0 {
      NegativeTimes(d, n as real);
    }
  }

  lemma {:induction false} NegativeTimes(d: real, n: real)
    requires d < 0.0 && n > 0.0
    ensures d * n < 0.0
  {
  }

  lemma {:induction false} SumMoves(
    overlap: real, overlap': real, coverage: real, signal: real, signal': real, structured: bool, structured': bool)
    requires overlap <= overlap' && signal <= signal' && (structured ==> structured')
    ensures Round2(SourceSum(overlap, coverage, signal, structured))
            <= Round2(SourceSum(overlap', coverage, signal', structured'))
  {
    RoundIsMonotone(SourceSum(overlap, coverage, signal, structured),
                    SourceSum(overlap', coverage, signal', structured'));
  }

  /** Every term, every subquery and a top rank each time give one; none of them, and no structure, give zero. */
  lemma {:induction false} SourceScoreEnds(terms: nat, subqueries: nat)
    requires terms > 0 && subqueries > 0
    ensures EvidenceRetrieval.VerificationScore(terms, terms, subqueries, subqueries, subqueries as real, false) == 1.0
    ensures EvidenceRetrieval.VerificationScore(0, terms, 0, subqueries, 0.0, false) == 0.0
  {
    assert Quotient(terms as real, terms) == 1.0 && Quotient(subqueries as real, subqueries) == 1.0;
    assert Quotient(0.0, terms) == 0.0 && Quotient(0.0, subqueries) == 0.0 && Quotient(0.0, 1) == 0.0;
  }
}
