/**
 The aggregation of retrieval results (nexus_research.py): the chunks that the subqueries return, in
 rank order, are folded into one candidate for each text span, and each candidate is scored. The
 subqueries are distinct, so a subquery is its position.
 */
module EvidenceRetrieval {
  import opened Common
  import opened EvidenceSelection
  import EvidenceClaims

  /** One retrieved chunk: which subquery found it, and at which rank from one. */
  datatype Hit = Hit(query: nat, rank: nat, span: Span)

  datatype Entry = Entry(span: Span, queries: seq<nat>, bestRank: nat, retrievalScore: real, hitCount: nat)

  // ---------------------------------------------------------------------------------------------
  // The fold
  // ---------------------------------------------------------------------------------------------

  function Inverse(rank: nat): real { if rank == 0 then 0.0 else 1.0 / rank as real }

  function NewEntry(h: Hit): Entry { Entry(h.span, [], h.rank, 0.0, 0) }

  function Noted(e: Entry, h: Hit): Entry {
    var known := h.query in e.queries;
    Entry(e.span, if known then e.queries else e.queries + [h.query], Min(e.bestRank, h.rank),
          e.retrievalScore + Inverse(h.rank), if known then e.hitCount else e.hitCount + 1)
  }

  /** The position of a span's entry, or the number of entries. */
  function IndexOf(entries: seq<Entry>, span: Span): (i: nat)
    ensures i <= |entries|
    ensures i < |entries| ==> entries[i].span == span
    ensures forall k :: 0 <= k < i ==> entries[k].span != span
  {
    FirstAt(entries, (e: Entry) => e.span, span)
  }

  predicate Has(entries: seq<Entry>, span: Span) { IndexOf(entries, span) < |entries| }

  function Aggregated(entries: seq<Entry>, h: Hit): seq<Entry> {
    var i := IndexOf(entries, h.span);
    if i == |entries| then entries + [Noted(NewEntry(h), h)] else entries[i := Noted(entries[i], h)]
  }

  function Folded(hits: seq<Hit>): seq<Entry> {
    if hits == [] then [] else Aggregated(Folded(hits[..|hits| - 1]), hits[|hits| - 1])
  }

  function HitsOfQuery(query: nat, spans: seq<Span>): seq<Hit> {
    seq(|spans|, i requires 0 <= i < |spans| => Hit(query, i + 1, spans[i]))
  }

  /** Every hit, in the order of the nested loops. */
  function AllHits(results: seq<seq<Span>>): seq<Hit> {
    if results == [] then [] else AllHits(results[..|results| - 1]) + HitsOfQuery(|results| - 1, results[|results| - 1])
  }

  // ---------------------------------------------------------------------------------------------
  // Recomputation from all hits
  // ---------------------------------------------------------------------------------------------

  function HitsOf(hits: seq<Hit>, span: Span): seq<Hit> {
    if hits == [] then []
    else
      var earlier, last := HitsOf(hits[..|hits| - 1], span), hits[|hits| - 1];
      if last.span == span then earlier + [last] else earlier
  }

  function QueriesOf(own: seq<Hit>): set<nat> { set h | h in own :: h.query }

  function SumInverse(own: seq<Hit>): real {
    if own == [] then 0.0 else SumInverse(own[..|own| - 1]) + Inverse(own[|own| - 1].rank)
  }

  /**
   The entry says of these hits what a recomputation would: the subqueries that found it, each once,
   the best rank, and the sum of inverse ranks.
   */
  ghost predicate Describes(e: Entry, own: seq<Hit>) {
    && own != []
    && NoDup(e.queries) && Elements(e.queries) == QueriesOf(own) && e.hitCount == |e.queries|
    && (forall i :: 0 <= i < |own| ==> e.bestRank <= own[i].rank)
    && (exists i :: 0 <= i < |own| && e.bestRank == own[i].rank)
    && e.retrievalScore == SumInverse(own)
  }

  ghost predicate DistinctSpans(entries: seq<Entry>) {
    forall i, j :: 0 <= i < j < |entries| ==> entries[i].span != entries[j].span
  }

  ghost predicate AllDescribe(entries: seq<Entry>, hits: seq<Hit>) {
    forall i :: 0 <= i < |entries| ==> Describes(entries[i], HitsOf(hits, entries[i].span))
  }

  ghost predicate AllKnown(entries: seq<Entry>, hits: seq<Hit>) {
    forall k :: 0 <= k < |hits| ==> Has(entries, hits[k].span)
  }

  lemma {:induction false} HitsAppend(hits: seq<Hit>, h: Hit, span: Span)
    ensures HitsOf(hits + [h], span) == if h.span == span then HitsOf(hits, span) + [h] else HitsOf(hits, span)
  {
    assert (hits + [h])[..|hits|] == hits;
  }

  lemma {:induction false} QueriesAppend(own: seq<Hit>, h: Hit)
    ensures QueriesOf(own + [h]) == QueriesOf(own) + {h.query}
  {
    assert h in own + [h];
  }

  lemma {:induction false} NotedDescribes(e: Entry, own: seq<Hit>, h: Hit)
    requires Describes(e, own)
    ensures Describes(Noted(e, h), own + [h])
  {
    var after, n := own + [h], Noted(e, h);
    assert after[..|own|] == own && after[|own|] == h;
    QueriesAppend(own, h);
    assert Elements(e.queries + [h.query]) == Elements(e.queries) + {h.query};
    assert h.query in e.queries <==> h.query in Elements(e.queries);
    var i :| 0 <= i < |own| && e.bestRank == own[i].rank;
    assert after[if h.rank < e.bestRank then |own| else i].rank == n.bestRank;
  }

  lemma {:induction false} FirstDescribes(h: Hit)
    ensures Describes(Noted(NewEntry(h), h), [h])
  {
    var e := Noted(NewEntry(h), h);
    assert [h][..0] == [] && [h][0] == h;
    assert [] + [h.query] == [h.query];
    assert Elements([h.query]) == QueriesOf([h]) by {
      assert h in [h] && h.query in [h.query];
    }
  }

  lemma {:induction false} NoHitsOf(hits: seq<Hit>, span: Span)
    requires forall k :: 0 <= k < |hits| ==> hits[k].span != span
    ensures HitsOf(hits, span) == []
  {
    if hits != [] {
      NoHitsOf(hits[..|hits| - 1], span);
    }
  }

  lemma {:induction false} NewSpanDescribes(entries: seq<Entry>, hits: seq<Hit>, h: Hit)
    requires AllKnown(entries, hits) && !Has(entries, h.span)
    ensures Describes(Noted(NewEntry(h), h), HitsOf(hits, h.span) + [h])
  {
    forall k | 0 <= k < |hits| ensures hits[k].span != h.span {
      assert Has(entries, hits[k].span);
    }
    NoHitsOf(hits, h.span);
    FirstDescribes(h);
    assert [] + [h] == [h];
  }

  lemma {:induction false} AggregatedDescribes(entries: seq<Entry>, hits: seq<Hit>, h: Hit)
    requires DistinctSpans(entries) && AllDescribe(entries, hits) && AllKnown(entries, hits)
    ensures AllDescribe(Aggregated(entries, h), hits + [h])
  {
    var i, after, more := IndexOf(entries, h.span), Aggregated(entries, h), hits + [h];
    forall j | 0 <= j < |after| ensures Describes(after[j], HitsOf(more, after[j].span)) {
      HitsAppend(hits, h, after[j].span);
      if j == i < |entries| {
        NotedDescribes(entries[i], HitsOf(hits, h.span), h);
      } else if j == |entries| {
        NewSpanDescribes(entries, hits, h);
      } else {
        assert after[j] == entries[j] && entries[j].span != h.span;
        assert Describes(entries[j], HitsOf(hits, entries[j].span));
      }
    }
  }

  lemma {:induction false} AggregatedSpans(entries: seq<Entry>, h: Hit)
    requires DistinctSpans(entries)
    ensures DistinctSpans(Aggregated(entries, h))
    ensures forall k :: 0 <= k < |entries| ==> Aggregated(entries, h)[k].span == entries[k].span
    ensures Has(Aggregated(entries, h), h.span)
  {
    assert Aggregated(entries, h)[IndexOf(entries, h.span)].span == h.span;
  }

  /**
   After any hits there is exactly one candidate for each span retrieved, equal to the recomputation
   over its hits.
   */
  lemma {:induction false} AggregationIsExact(hits: seq<Hit>)
    ensures DistinctSpans(Folded(hits)) && AllDescribe(Folded(hits), hits) && AllKnown(Folded(hits), hits)
  {
    if hits != [] {
      var earlier, h := hits[..|hits| - 1], hits[|hits| - 1];
      var before := Folded(earlier);
      AggregationIsExact(earlier);
      AggregatedSpans(before, h);
      AggregatedDescribes(before, earlier, h);
      AggregatedKnows(before, earlier, h);
      assert earlier + [h] == hits;
    }
  }

  lemma {:induction false} AggregatedKnows(entries: seq<Entry>, hits: seq<Hit>, h: Hit)
    requires DistinctSpans(entries) && AllKnown(entries, hits)
    ensures AllKnown(Aggregated(entries, h), hits + [h])
  {
    var after := Aggregated(entries, h);
    AggregatedSpans(entries, h);
    forall k | 0 <= k < |hits| ensures Has(after, hits[k].span) {
      assert Has(entries, hits[k].span);
    }
  }

  /** A candidate is found by no more subqueries than there are. */
  lemma {:induction false} HitCountIsBounded(hits: seq<Hit>, total: nat, i: nat)
    requires forall k :: 0 <= k < |hits| ==> hits[k].query < total
    requires i < |Folded(hits)|
    ensures 1 <= Folded(hits)[i].hitCount <= total
    ensures Folded(hits)[i].retrievalScore >= 0.0
  {
    AggregationIsExact(hits);
    var e := Folded(hits)[i];
    var own := HitsOf(hits, e.span);
    OwnHits(hits, e.span);
    NoDupCardinality(e.queries);
    assert own[0].query in QueriesOf(own) by {
      assert own[0] in own;
    }
    assert Elements(e.queries) != {};
    SubsetOfRange(Elements(e.queries), total);
    SumInverseIsNonNegative(own);
  }

  lemma {:induction false} OwnHits(hits: seq<Hit>, span: Span)
    ensures forall h :: h in HitsOf(hits, span) ==> h in hits && h.span == span
  {
    if hits != [] {
      OwnHits(hits[..|hits| - 1], span);
    }
  }

  lemma {:induction false} SubsetOfRange(s: set<nat>, n: nat)
    requires forall x :: x in s ==> x < n
    ensures |s| <= n
  {
    if n > 0 {
      SubsetOfRange(s - {n - 1}, n - 1);
    } else {
      assert s == {};
    }
  }

  lemma {:induction false} SumInverseIsNonNegative(own: seq<Hit>)
    ensures SumInverse(own) >= 0.0
  {
    if own != [] {
      SumInverseIsNonNegative(own[..|own| - 1]);
    }
  }

  lemma {:induction false} FoldedAppend(hits: seq<Hit>, h: Hit)
    ensures Folded(hits + [h]) == Aggregated(Folded(hits), h)
  {
    assert (hits + [h])[..|hits|] == hits;
  }

  /** The retrieval loop over the subqueries. */
  method AggregateHits(results: seq<seq<Span>>) returns (aggregated: seq<Entry>)
    ensures aggregated == Folded(AllHits(results))
  {
    aggregated := [];
    for q := 0 to |results|
      invariant aggregated == Folded(AllHits(results[..q]))
    {
      AllHitsStep(results, q);
      aggregated := AggregateQuery(aggregated, q, results[q], AllHits(results[..q]));
    }
    assert results[..|results|] == results;
  }

  lemma {:induction false} AllHitsStep(results: seq<seq<Span>>, q: nat)
    requires q < |results|
    ensures AllHits(results[..q + 1]) == AllHits(results[..q]) + HitsOfQuery(q, results[q])
  {
    assert results[..q + 1][..q] == results[..q];
  }

  /** The loop over one subquery's chunks, in rank order. */
  method AggregateQuery(
    entries: seq<Entry>, q: nat, spans: seq<Span>, ghost earlier: seq<Hit>)
    returns (aggregated: seq<Entry>)
    requires entries == Folded(earlier)
    ensures aggregated == Folded(earlier + HitsOfQuery(q, spans))
  {
    aggregated := entries;
    ghost var hits := HitsOfQuery(q, spans);
    PrefixEnds(earlier, hits);
    for r := 0 to |spans|
      invariant aggregated == FoldedPrefix(earlier, hits, r)
    {
      PrefixStep(earlier, hits, r);
      var h := Hit(q, r + 1, spans[r]);
      assert h == hits[r];
      aggregated := Aggregated(aggregated, h);
    }
    assert |hits| == |spans|;
  }

  ghost function FoldedPrefix(earlier: seq<Hit>, hits: seq<Hit>, r: nat): seq<Entry>
    requires r <= |hits|
  {
    Folded(earlier + hits[..r])
  }

  lemma {:induction false} PrefixEnds(earlier: seq<Hit>, hits: seq<Hit>)
    ensures FoldedPrefix(earlier, hits, 0) == Folded(earlier)
    ensures FoldedPrefix(earlier, hits, |hits|) == Folded(earlier + hits)
  {
    assert earlier + hits[..0] == earlier && hits[..|hits|] == hits;
  }

  lemma {:induction false} PrefixStep(earlier: seq<Hit>, hits: seq<Hit>, r: nat)
    requires r < |hits|
    ensures FoldedPrefix(earlier, hits, r + 1) == Aggregated(FoldedPrefix(earlier, hits, r), hits[r])
  {
    SnocPrefix(earlier, hits, r);
    FoldedAppend(earlier + hits[..r], hits[r]);
  }

  lemma {:induction false} SnocPrefix(earlier: seq<Hit>, hits: seq<Hit>, r: nat)
    requires r < |hits|
    ensures earlier + hits[..r + 1] == earlier + hits[..r] + [hits[r]]
  {
  }

  // ---------------------------------------------------------------------------------------------
  // Recomputation from the results
  // ---------------------------------------------------------------------------------------------

  /** What a span scores in one result list: the inverse of each rank, from one, at which it stands. */
  ghost function ListScore(spans: seq<Span>, span: Span): real {
    if spans == [] then 0.0
    else ListScore(spans[..|spans| - 1], span) + if spans[|spans| - 1] == span then 1.0 / |spans| as real else 0.0
  }

  ghost function RankScore(results: seq<seq<Span>>, span: Span): real {
    if results == [] then 0.0
    else RankScore(results[..|results| - 1], span) + ListScore(results[|results| - 1], span)
  }

  lemma {:induction false} HitsOfAppends(a: seq<Hit>, b: seq<Hit>, span: Span)
    ensures HitsOf(a + b, span) == HitsOf(a, span) + HitsOf(b, span)
  {
    if b == [] {
      assert a + b == a && HitsOf(a, span) + [] == HitsOf(a, span);
    } else {
      var n := |b| - 1;
      HitsOfAppends(a, b[..n], span);
      assert (a + b)[..|a + b| - 1] == a + b[..n];
    }
  }

  lemma {:induction false} SumInverseAppends(a: seq<Hit>, b: seq<Hit>)
    ensures SumInverse(a + b) == SumInverse(a) + SumInverse(b)
  {
    if b == [] {
      assert a + b == a;
    } else {
      var n := |b| - 1;
      SumInverseAppends(a, b[..n]);
      assert (a + b)[..|a + b| - 1] == a + b[..n];
    }
  }

  lemma {:induction false} ListScoreIs(query: nat, spans: seq<Span>, span: Span)
    ensures SumInverse(HitsOf(HitsOfQuery(query, spans), span)) == ListScore(spans, span)
  {
    if spans != [] {
      var n := |spans| - 1;
      var hits := HitsOfQuery(query, spans);
      ListScoreIs(query, spans[..n], span);
      assert hits[..n] == HitsOfQuery(query, spans[..n]) && hits[n] == Hit(query, |spans|, spans[n]);
      var earlier := HitsOf(hits[..n], span);
      assert (earlier + [hits[n]])[..|earlier|] == earlier;
    }
  }

  lemma {:induction false} RankScoreIs(results: seq<seq<Span>>, span: Span)
    ensures SumInverse(HitsOf(AllHits(results), span)) == RankScore(results, span)
  {
    if results != [] {
      var n := |results| - 1;
      RankScoreIs(results[..n], span);
      HitsOfAppends(AllHits(results[..n]), HitsOfQuery(n, results[n]), span);
      SumInverseAppends(HitsOf(AllHits(results[..n]), span), HitsOf(HitsOfQuery(n, results[n]), span));
      ListScoreIs(n, results[n], span);
    }
  }

  /** The hit says where in the results its span stands. */
  ghost predicate IsHitIn(results: seq<seq<Span>>, h: Hit) {
    h.query < |results| && 1 <= h.rank <= |results[h.query]| && results[h.query][h.rank - 1] == h.span
  }

  lemma {:induction false} HitsAreOfResults(results: seq<seq<Span>>, h: Hit)
    ensures h in AllHits(results) <==> IsHitIn(results, h)
  {
    if results != [] {
      var n := |results| - 1;
      var last := HitsOfQuery(n, results[n]);
      HitsAreOfResults(results[..n], h);
      assert h in AllHits(results) <==> h in AllHits(results[..n]) || h in last;
      if h.query == n && 1 <= h.rank <= |last| {
        assert last[h.rank - 1] == Hit(n, h.rank, results[n][h.rank - 1]);
      }
      if h in last {
        var k :| 0 <= k < |last| && last[k] == h;
      }
    }
  }

  lemma {:induction false} OwnHitsIff(hits: seq<Hit>, span: Span, h: Hit)
    ensures h in HitsOf(hits, span) <==> h in hits && h.span == span
  {
    if hits != [] {
      OwnHitsIff(hits[..|hits| - 1], span, h);
      assert hits == hits[..|hits| - 1] + [hits[|hits| - 1]];
    }
  }

  /**
   A candidate, read off the result lists: it is listed with exactly the subqueries that returned its
   span, each once, and counts them; its best rank is the least at which its span stands; and its score
   is the sum of the inverse ranks.
   */
  ghost predicate ReadsResults(results: seq<seq<Span>>, e: Entry) {
    && NoDup(e.queries) && e.hitCount == |e.queries|
    && (forall k: nat :: k in e.queries <==> k < |results| && e.span in results[k])
    && (exists k: nat, r: nat :: k < |results| && r < |results[k]| && results[k][r] == e.span && e.bestRank == r + 1)
    && (forall k: nat, r: nat :: k < |results| && r < |results[k]| && results[k][r] == e.span ==> e.bestRank <= r + 1)
    && e.retrievalScore == RankScore(results, e.span)
  }

  lemma {:induction false} EntryQueries(results: seq<seq<Span>>, e: Entry, k: nat)
    requires Describes(e, HitsOf(AllHits(results), e.span))
    ensures k in e.queries <==> k < |results| && e.span in results[k]
  {
    var own := HitsOf(AllHits(results), e.span);
    assert k in e.queries <==> k in Elements(e.queries);
    if k in e.queries {
      var h :| h in own && h.query == k;
      OwnHitsIff(AllHits(results), e.span, h);
      HitsAreOfResults(results, h);
    }
    if k < |results| && e.span in results[k] {
      var r :| 0 <= r < |results[k]| && results[k][r] == e.span;
      var h := Hit(k, r + 1, e.span);
      HitsAreOfResults(results, h);
      OwnHitsIff(AllHits(results), e.span, h);
      assert h.query in QueriesOf(own);
    }
  }

  lemma {:induction false} EntryRank(results: seq<seq<Span>>, e: Entry)
    requires Describes(e, HitsOf(AllHits(results), e.span))
    ensures exists k: nat, r: nat :: k < |results| && r < |results[k]| && results[k][r] == e.span && e.bestRank == r + 1
    ensures forall k: nat, r: nat ::
      k < |results| && r < |results[k]| && results[k][r] == e.span ==> e.bestRank <= r + 1
  {
    var own := HitsOf(AllHits(results), e.span);
    var i :| 0 <= i < |own| && e.bestRank == own[i].rank;
    assert own[i] in own;
    OwnHitsIff(AllHits(results), e.span, own[i]);
    HitsAreOfResults(results, own[i]);
    assert results[own[i].query][own[i].rank - 1] == e.span;
    forall k: nat, r: nat | k < |results| && r < |results[k]| && results[k][r] == e.span ensures e.bestRank <= r + 1 {
      var h := Hit(k, r + 1, e.span);
      HitsAreOfResults(results, h);
      OwnHitsIff(AllHits(results), e.span, h);
      var j :| 0 <= j < |own| && own[j] == h;
    }
  }

  lemma {:induction false} EntriesReadResults(results: seq<seq<Span>>, i: nat)
    requires i < |Folded(AllHits(results))|
    ensures ReadsResults(results, Folded(AllHits(results))[i])
  {
    var e := Folded(AllHits(results))[i];
    AggregationIsExact(AllHits(results));
    assert Describes(e, HitsOf(AllHits(results), e.span));
    forall k: nat ensures k in e.queries <==> k < |results| && e.span in results[k] {
      EntryQueries(results, e, k);
    }
    EntryRank(results, e);
    RankScoreIs(results, e.span);
  }

  // ---------------------------------------------------------------------------------------------
  // Candidate scores
  // ---------------------------------------------------------------------------------------------

  /** `overlap` of `terms` question terms occur in the chunk, which may have a structural bonus. */
  function VerificationScore(
    overlap: nat, terms: nat, hitCount: nat, totalQueries: nat, retrievalScore: real, structured: bool): real {
    var overlapScore := if terms == 0 then 0.5 else EvidenceClaims.Quotient(overlap as real, terms);
    var queryCoverage := EvidenceClaims.Quotient(hitCount as real, Max(totalQueries, 1));
    var rankSignal := MinReal(EvidenceClaims.Quotient(retrievalScore, Max(hitCount, 1)), 1.0);
    var bonus := if structured then 0.15 else 0.0;
    MinReal(EvidenceClaims.Round2(0.45 * overlapScore + 0.30 * queryCoverage + 0.25 * rankSignal + bonus), 1.0)
  }

  lemma {:induction false} QuotientIsNonNegative(a: real, n: nat)
    requires a >= 0.0 && n > 0
    ensures EvidenceClaims.Quotient(a, n) >= 0.0
  {
  }

  /** Verification scores lie between zero and one. */
  lemma {:induction false} VerificationScoreIsBounded(
    overlap: nat, terms: nat, hitCount: nat, totalQueries: nat, retrievalScore: real, structured: bool)
    requires retrievalScore >= 0.0
    ensures EvidenceClaims.InUnit(VerificationScore(overlap, terms, hitCount, totalQueries, retrievalScore, structured))
  {
    if terms > 0 {
      QuotientIsNonNegative(overlap as real, terms);
    }
    QuotientIsNonNegative(hitCount as real, Max(totalQueries, 1));
    QuotientIsNonNegative(retrievalScore, Max(hitCount, 1));
    WeightedIsNonNegative(if terms == 0 then 0.5 else EvidenceClaims.Quotient(overlap as real, terms),
                          EvidenceClaims.Quotient(hitCount as real, Max(totalQueries, 1)),
                          MinReal(EvidenceClaims.Quotient(retrievalScore, Max(hitCount, 1)), 1.0),
                          if structured then 0.15 else 0.0);
  }

  lemma {:induction false} WeightedIsNonNegative(a: real, b: real, c: real, bonus: real)
    requires a >= 0.0 && b >= 0.0 && c >= 0.0 && bonus >= 0.0
    ensures EvidenceClaims.Round2(0.45 * a + 0.30 * b + 0.25 * c + bonus) >= 0.0
  {
    EvidenceClaims.RoundKeepsUnit(0.45 * a + 0.30 * b + 0.25 * c + bonus);
  }
}
