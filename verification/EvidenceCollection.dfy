/**
 The whole of source collection and synthesis (nexus_research.py): aggregation, scoring, ranking,
 diverse selection and numbering, followed by the claims. What a chunk looks like and what a subquery
 says are given as functions of its span and its position.
 */
module EvidenceCollection {
  import opened Common
  import opened Sorting
  import opened EvidenceSelection
  import opened EvidenceClaims
  import EvidenceRetrieval
  import EvidenceScores

  /** What scoring and claim building read from the chunk at a span. */
  datatype Chunk = Chunk(anchor: Anchor, excerpt: string, overlap: nat, structured: bool)

  /** The question: how many terms it has, how many sources are wanted, its subqueries, and the indexed chunks. */
  datatype Question = Question(terms: nat, limit: int, queryAt: nat -> Query, chunkAt: Span -> Chunk)

  /** A scored candidate; its source gets its id when it is selected. */
  datatype Candidate = Candidate(span: Span, bestRank: nat, source: Source)

  // ---------------------------------------------------------------------------------------------
  // The pipeline
  // ---------------------------------------------------------------------------------------------

  function QueriesAt(positions: seq<nat>, queryAt: nat -> Query): seq<Query> {
    seq(|positions|, i requires 0 <= i < |positions| => queryAt(positions[i]))
  }

  /** `_build_source_payload`. */
  function Payload(e: EvidenceRetrieval.Entry, q: Question, subqueries: nat): Candidate {
    var chunk := q.chunkAt(e.span);
    var score := EvidenceRetrieval.VerificationScore(
      chunk.overlap, q.terms, e.hitCount, subqueries, e.retrievalScore, chunk.structured);
    Candidate(e.span, e.bestRank, Source(
      0, e.span.file, chunk.anchor, score, e.hitCount, Round2(e.retrievalScore), QueriesAt(e.queries, q.queryAt),
        chunk.excerpt))
  }

  function Payloads(entries: seq<EvidenceRetrieval.Entry>, q: Question, subqueries: nat): seq<Candidate> {
    seq(|entries|, i requires 0 <= i < |entries| => Payload(entries[i], q, subqueries))
  }

  /** By strength, and then by best rank. */
  predicate RanksBefore(a: Candidate, b: Candidate) {
    !AtLeastAsStrong(b.source, a.source) || (AtLeastAsStrong(a.source, b.source) && a.bestRank <= b.bestRank)
  }

  /** Every candidate, in the order in which its span was first retrieved. */
  function Scored(results: seq<seq<Span>>, q: Question): seq<Candidate> {
    Payloads(EvidenceRetrieval.Folded(EvidenceRetrieval.AllHits(results)), q, |results|)
  }

  /** Every candidate, best first. */
  function Candidates(results: seq<seq<Span>>, q: Question): seq<Candidate> { Sort(Scored(results, q), RanksBefore) }

  function SpanList(cs: seq<Candidate>): seq<Span> {
    seq(|cs|, i requires 0 <= i < |cs| => cs[i].span)
  }

  function At(cs: seq<Candidate>, span: Span): (i: nat)
    ensures i <= |cs|
    ensures i < |cs| ==> cs[i].span == span
    ensures forall k :: 0 <= k < i ==> cs[k].span != span
  {
    FirstAt(cs, (c: Candidate) => c.span, span)
  }

  /** The candidates of the selected spans. */
  function Selected(cs: seq<Candidate>, limit: int): (r: seq<Candidate>)
    ensures |r| == |Diverse(SpanList(cs), limit)|
    ensures forall i :: 0 <= i < |r| ==> r[i] in cs && r[i].span == Diverse(SpanList(cs), limit)[i]
  {
    var spans := Diverse(SpanList(cs), limit);
    SelectedAreCandidates(cs, limit);
    seq(|spans|, i requires 0 <= i < |spans| => cs[At(cs, spans[i])])
  }

  function SourcesOf(cs: seq<Candidate>): seq<Source> {
    seq(|cs|, i requires 0 <= i < |cs| => cs[i].source)
  }

  /** What `_collect_sources` returns. */
  function Collected(results: seq<seq<Span>>, q: Question): seq<Source> {
    Numbered(SourcesOf(Selected(Candidates(results, q), q.limit)))
  }

  // ---------------------------------------------------------------------------------------------
  // Selection finds candidates
  // ---------------------------------------------------------------------------------------------

  lemma {:induction false} SelectedAreCandidates(cs: seq<Candidate>, limit: int)
    ensures var spans := Diverse(SpanList(cs), limit);
      forall i :: 0 <= i < |spans| ==> At(cs, spans[i]) < |cs|
  {
    var spans := Diverse(SpanList(cs), limit);
    if limit > 0 {
      SelectionIsDiverse(SpanList(cs), limit);
    }
    forall i | 0 <= i < |spans| ensures At(cs, spans[i]) < |cs| {
      assert spans[i] in SpansOf(spans);
      assert spans[i] in SpanList(cs);
      var k :| 0 <= k < |cs| && SpanList(cs)[k] == spans[i];
      assert cs[k].span == spans[i];
    }
  }

  /** The spans that the subqueries retrieved. */
  function Retrieved(results: seq<seq<Span>>): set<Span> { set r, s | r in results && s in r :: s }

  lemma {:induction false} HitsCoverResults(results: seq<seq<Span>>)
    ensures forall h :: h in EvidenceRetrieval.AllHits(results) ==> h.span in Retrieved(results) && h.query < |results|
    ensures forall s :: s in Retrieved(results) ==> exists h :: h in EvidenceRetrieval.AllHits(results) && h.span == s
  {
    if results != [] {
      var n := |results| - 1;
      var last := EvidenceRetrieval.HitsOfQuery(n, results[n]);
      HitsCoverResults(results[..n]);
      assert results == results[..n] + [results[n]];
      forall s | s in Retrieved(results) ensures exists h :: h in EvidenceRetrieval.AllHits(results) && h.span == s {
        if s in results[n] {
          var k :| 0 <= k < |results[n]| && results[n][k] == s;
          assert last[k] in EvidenceRetrieval.AllHits(results);
        } else {
          assert s in Retrieved(results[..n]);
          var h :| h in EvidenceRetrieval.AllHits(results[..n]) && h.span == s;
          assert h in EvidenceRetrieval.AllHits(results);
        }
      }
      forall h | h in EvidenceRetrieval.AllHits(results) ensures h.span in Retrieved(results) && h.query < |results| {
        if h in last {
          var k :| 0 <= k < |last| && last[k] == h;
          assert results[n][k] in results[n];
        } else {
          assert h in EvidenceRetrieval.AllHits(results[..n]);
        }
      }
    }
  }

  ghost predicate IsSound(c: Candidate, subqueries: nat) {
    InUnit(c.source.verification) && 1 <= c.source.hits <= subqueries && c.source.file == c.span.file
  }

  ghost predicate AllSound(cs: seq<Candidate>, subqueries: nat) {
    forall i :: 0 <= i < |cs| ==> IsSound(cs[i], subqueries)
  }

  lemma {:induction false} PayloadIsSound(hits: seq<EvidenceRetrieval.Hit>, q: Question, subqueries: nat, i: nat)
    requires forall k :: 0 <= k < |hits| ==> hits[k].query < subqueries
    requires i < |EvidenceRetrieval.Folded(hits)|
    ensures IsSound(Payload(EvidenceRetrieval.Folded(hits)[i], q, subqueries), subqueries)
  {
    var e := EvidenceRetrieval.Folded(hits)[i];
    var chunk := q.chunkAt(e.span);
    EvidenceRetrieval.HitCountIsBounded(hits, subqueries, i);
    EvidenceRetrieval.VerificationScoreIsBounded(
      chunk.overlap, q.terms, e.hitCount, subqueries, e.retrievalScore, chunk.structured);
  }

  lemma {:induction false} ScoredAreSound(results: seq<seq<Span>>, q: Question)
    ensures AllSound(Scored(results, q), |results|)
  {
    var hits := EvidenceRetrieval.AllHits(results);
    HitsCoverResults(results);
    forall i | 0 <= i < |Scored(results, q)| ensures IsSound(Scored(results, q)[i], |results|) {
      PayloadIsSound(hits, q, |results|, i);
    }
  }

  lemma {:induction false} SortKeepsSound(cs: seq<Candidate>, subqueries: nat)
    requires AllSound(cs, subqueries)
    ensures AllSound(Sort(cs, RanksBefore), subqueries)
  {
    var sorted := Sort(cs, RanksBefore);
    SortPermutes(cs, RanksBefore);
    forall i | 0 <= i < |sorted| ensures IsSound(sorted[i], subqueries) {
      assert sorted[i] in sorted;
      var k :| 0 <= k < |cs| && cs[k] == sorted[i];
    }
  }

  lemma {:induction false} CandidatesAreSound(results: seq<seq<Span>>, q: Question)
    ensures AllSound(Candidates(results, q), |results|)
  {
    ScoredAreSound(results, q);
    SortKeepsSound(Scored(results, q), |results|);
  }

  lemma {:induction false} RankingOrders(cs: seq<Candidate>)
    ensures Pairwise(Sort(cs, RanksBefore), RanksBefore)
  {
    SortOrders(cs, RanksBefore, RanksBefore);
  }

  lemma {:induction false} SortKeepsSpans(cs: seq<Candidate>)
    ensures SpansOf(SpanList(Sort(cs, RanksBefore))) == SpansOf(SpanList(cs))
  {
    var sorted := Sort(cs, RanksBefore);
    SortPermutes(cs, RanksBefore);
    forall s ensures s in SpanList(sorted) <==> s in SpanList(cs) {
      if s in SpanList(sorted) {
        var k :| 0 <= k < |sorted| && SpanList(sorted)[k] == s;
        assert sorted[k] in cs;
        var i :| 0 <= i < |cs| && cs[i] == sorted[k];
        assert SpanList(cs)[i] == s;
      }
      if s in SpanList(cs) {
        var k :| 0 <= k < |cs| && SpanList(cs)[k] == s;
        assert cs[k] in sorted;
        var i :| 0 <= i < |sorted| && sorted[i] == cs[k];
        assert SpanList(sorted)[i] == s;
      }
    }
  }

  /** There is an entry for exactly the spans retrieved. */
  lemma {:induction false} EntriesCoverResults(results: seq<seq<Span>>, s: Span)
    ensures EvidenceRetrieval.Has(EvidenceRetrieval.Folded(EvidenceRetrieval.AllHits(results)), s)
      <==> s in Retrieved(results)
  {
    var hits := EvidenceRetrieval.AllHits(results);
    var entries := EvidenceRetrieval.Folded(hits);
    HitsCoverResults(results);
    EvidenceRetrieval.AggregationIsExact(hits);
    if EvidenceRetrieval.Has(entries, s) {
      var i := EvidenceRetrieval.IndexOf(entries, s);
      var own := EvidenceRetrieval.HitsOf(hits, s);
      assert EvidenceRetrieval.Describes(entries[i], own);
      EvidenceRetrieval.OwnHits(hits, s);
      assert own[0] in own;
    }
    if s in Retrieved(results) {
      var h :| h in hits && h.span == s;
      var j :| 0 <= j < |hits| && hits[j] == h;
      assert EvidenceRetrieval.Has(entries, hits[j].span);
    }
  }

  /** The candidates' spans are exactly the spans retrieved. */
  lemma {:induction false} CandidatesCoverResults(results: seq<seq<Span>>, q: Question)
    ensures SpansOf(SpanList(Candidates(results, q))) == Retrieved(results)
  {
    var entries, spans := EvidenceRetrieval.Folded(EvidenceRetrieval.AllHits(results)), SpanList(Scored(results, q));
    SortKeepsSpans(Scored(results, q));
    forall s ensures s in spans <==> s in Retrieved(results) {
      EntriesCoverResults(results, s);
      if s in spans {
        var k :| 0 <= k < |spans| && spans[k] == s;
        assert entries[k].span == s;
      }
      if EvidenceRetrieval.Has(entries, s) {
        assert spans[EvidenceRetrieval.IndexOf(entries, s)] == s;
      }
    }
  }

  /** A candidate, read off the result lists and the chunk at its span. */
  ghost predicate TellsOfSpan(results: seq<seq<Span>>, q: Question, c: Candidate) {
    && var chunk, s := q.chunkAt(c.span), c.source;
    && s.file == c.span.file && s.anchor == chunk.anchor && s.excerpt == chunk.excerpt
    && (exists at: seq<nat> ::
          && NoDup(at) && (forall k: nat :: k in at <==> k < |results| && c.span in results[k])
          && s.hits == |at| && |s.queries| == |at| && forall j :: 0 <= j < |at| ==> s.queries[j] == q.queryAt(at[j]))
    && (exists k: nat, r: nat :: k < |results| && r < |results[k]| && results[k][r] == c.span && c.bestRank == r + 1)
    && (forall k: nat, r: nat :: k < |results| && r < |results[k]| && results[k][r] == c.span ==> c.bestRank <= r + 1)
    && var score := EvidenceRetrieval.RankScore(results, c.span);
    && EvidenceScores.Near(score, s.retrieval) && EvidenceScores.IsHundredths(s.retrieval)
    && EvidenceScores.IsHundredths(s.verification)
    && EvidenceScores.Near(
         MinReal(EvidenceScores.SourceSum(
           EvidenceScores.OverlapShare(chunk.overlap, q.terms), s.hits as real / Max(|results|, 1) as real,
           score / Max(s.hits, 1) as real, chunk.structured), 1.0),
         s.verification)
  }

  lemma {:induction false} PayloadTells(results: seq<seq<Span>>, q: Question, e: EvidenceRetrieval.Entry)
    requires EvidenceRetrieval.ReadsResults(results, e)
    ensures TellsOfSpan(results, q, Payload(e, q, |results|))
  {
    var c, chunk := Payload(e, q, |results|), q.chunkAt(e.span);
    EvidenceScores.RoundIsNear(e.retrievalScore);
    EvidenceScores.RoundGivesHundredths(e.retrievalScore);
    EvidenceScores.SourceScoreIsNear(chunk.overlap, q.terms, e.hitCount, |results|, e.retrievalScore, chunk.structured);
    assert forall j :: 0 <= j < |e.queries| ==> c.source.queries[j] == q.queryAt(e.queries[j]);
  }

  /**
   Every candidate answers for the results: its subqueries, hits and best rank are those of its span, its
   retrieval score is the sum of the inverse ranks, to half a hundredth, and its verification score is
   within half a hundredth of the sum of its shares, or of one when that is more.
   */
  lemma {:induction false} CandidatesTellOfResults(results: seq<seq<Span>>, q: Question, i: nat)
    requires i < |Candidates(results, q)|
    ensures TellsOfSpan(results, q, Candidates(results, q)[i])
  {
    var scored := Scored(results, q);
    SortPermutes(scored, RanksBefore);
    assert Candidates(results, q)[i] in Candidates(results, q);
    var k :| 0 <= k < |scored| && scored[k] == Candidates(results, q)[i];
    EvidenceRetrieval.EntriesReadResults(results, k);
    PayloadTells(results, q, EvidenceRetrieval.Folded(EvidenceRetrieval.AllHits(results))[k]);
  }

  /**
   The order of the candidates: by verification score, hits, retrieval score and best rank, ties as
   they were first retrieved.
   */
  ghost predicate IsBetter(a: Candidate, b: Candidate) {
    || a.source.verification > b.source.verification
    || (a.source.verification == b.source.verification
        && (|| a.source.hits > b.source.hits
            || (a.source.hits == b.source.hits
                && (|| a.source.retrieval > b.source.retrieval
                    || (a.source.retrieval == b.source.retrieval && a.bestRank < b.bestRank)))))
  }

  lemma {:induction false} CandidatesAreOrdered(results: seq<seq<Span>>, q: Question, i: nat, j: nat)
    requires i < j < |Candidates(results, q)|
    ensures !IsBetter(Candidates(results, q)[j], Candidates(results, q)[i])
  {
    RankingOrders(Scored(results, q));
    assert RanksBefore(Candidates(results, q)[i], Candidates(results, q)[j]);
  }

  // ---------------------------------------------------------------------------------------------
  // What collection and synthesis guarantee together
  // ---------------------------------------------------------------------------------------------

  function FilesIn(spans: set<Span>): set<File> { set s | s in spans :: s.file }

  lemma {:induction false} FilesOfSpans(ss: seq<Span>)
    ensures FilesOf(ss) == FilesIn(SpansOf(ss))
  {
    if ss != [] {
      FilesOfSpans(ss[..|ss| - 1]);
      assert ss == ss[..|ss| - 1] + [ss[|ss| - 1]];
      assert SpansOf(ss) == SpansOf(ss[..|ss| - 1]) + {ss[|ss| - 1]};
    }
  }

  /**
   For any retrieval results and question, collection picks as many candidates as the limit and the
   number of distinct spans retrieved allow, no span twice, covering at least as many files as three,
   the limit and the results allow.
   */
  lemma {:induction false} CollectionIsDiverse(results: seq<seq<Span>>, q: Question)
    ensures var limit, spans := Max(q.limit, 0), SpanList(Selected(Candidates(results, q), q.limit));
      && |spans| == Min(limit, |Retrieved(results)|)
      && NoDup(spans) && SpansOf(spans) <= Retrieved(results)
      && |FilesOf(spans)| >= Min(Min(limit, 3), |FilesIn(Retrieved(results))|)
  {
    var cs := Candidates(results, q);
    assert SpanList(Selected(cs, q.limit)) == Diverse(SpanList(cs), q.limit);
    if q.limit > 0 {
      SelectionIsDiverse(SpanList(cs), q.limit);
      CandidatesCoverResults(results, q);
      FilesOfSpans(SpanList(cs));
    }
  }

  /**
   The sources that collection returns are those candidates, numbered from one, with scores between zero
   and one, found by at least one and at most all subqueries; and the first is at least as strong as
   every candidate.
   */
  lemma {:induction false} CollectionIsSound(results: seq<seq<Span>>, q: Question)
    ensures var picked, sources := Selected(Candidates(results, q), q.limit), Collected(results, q);
      && |sources| == |picked|
      && AllSound(picked, |results|)
      && (forall i :: 0 <= i < |sources| ==> sources[i] == picked[i].source.(id := i + 1))
      && (forall c :: sources != [] && c in Candidates(results, q) ==> AtLeastAsStrong(sources[0], c.source))
  {
    var picked := Selected(Candidates(results, q), q.limit);
    CandidatesAreSound(results, q);
    SelectedAreSound(Candidates(results, q), q.limit, |results|);
    if picked != [] {
      FirstPickLeads(results, q);
    }
  }

  lemma {:induction false} SelectedAreSound(cs: seq<Candidate>, limit: int, subqueries: nat)
    requires AllSound(cs, subqueries)
    ensures AllSound(Selected(cs, limit), subqueries)
  {
    var picked := Selected(cs, limit);
    forall i | 0 <= i < |picked| ensures IsSound(picked[i], subqueries) {
      var k :| 0 <= k < |cs| && cs[k] == picked[i];
    }
  }

  lemma {:induction false} FirstPickLeads(results: seq<seq<Span>>, q: Question)
    requires q.limit > 0 && Selected(Candidates(results, q), q.limit) != []
    ensures forall c :: c in Candidates(results, q) ==>
      AtLeastAsStrong(Selected(Candidates(results, q), q.limit)[0].source, c.source)
  {
    var cs := Candidates(results, q);
    var spans := SpanList(cs);
    RankingOrders(Scored(results, q));
    SelectionIsDiverse(spans, q.limit);
    SelectedAreCandidates(cs, q.limit);
    assert Diverse(spans, q.limit)[0] == spans[0] == cs[0].span;
    assert At(cs, spans[0]) == 0;
    forall c | c in cs ensures AtLeastAsStrong(cs[0].source, c.source) {
      var k :| 0 <= k < |cs| && cs[k] == c;
      assert k > 0 ==> RanksBefore(cs[0], cs[k]);
    }
  }

  /**
   From retrieval to verdict: the claims built from whatever collection returns have disjoint supports,
   oppose only collected sources, are scored between zero and one, and so is the answer as a whole.
   */
  lemma {:induction false} PipelineIsSound(results: seq<seq<Span>>, q: Question)
    ensures var sources := Collected(results, q);
      var cs := Contradictions(sources, CONTRADICTION_RULES);
      var claims := Claims(sources, cs, |results|);
      && UniqueIds(sources)
      && (forall i, j :: 0 <= i < j < |claims| ==> Elements(claims[i].support) !! Elements(claims[j].support))
      && (forall i :: 0 <= i < |claims| ==> Fits(sources, cs, claims[i]) && claims[i].oppose <= IdsOf(sources))
      && InUnit(OverallScore(claims, sources, |results|, |cs|))
  {
    var sources := Collected(results, q);
    var cs := Contradictions(sources, CONTRADICTION_RULES);
    var claims := Claims(sources, cs, |results|);
    forall i, j | 0 <= i < j < |claims| ensures Elements(claims[i].support) !! Elements(claims[j].support) {
      SupportsAreDisjoint(sources, cs, |results|, i, j);
    }
    ClaimsFit(sources, cs, |results|);
    forall i | 0 <= i < |claims| ensures claims[i].oppose <= IdsOf(sources) {
      OppositionIsGrounded(sources, |results|, i);
    }
    OverallScoreIsBounded(sources, cs, |results|, |cs|);
  }

  // ---------------------------------------------------------------------------------------------
  // The loops
  // ---------------------------------------------------------------------------------------------

  method CollectSources(results: seq<seq<Span>>, q: Question) returns (sources: seq<Source>)
    ensures sources == Collected(results, q)
  {
    var aggregated := EvidenceRetrieval.AggregateHits(results);
    var payloads := BuildPayloads(aggregated, q, |results|);
    sources := PickSources(Sort(payloads, RanksBefore), q.limit);
  }

  method BuildPayloads(
    entries: seq<EvidenceRetrieval.Entry>, q: Question, subqueries: nat)
    returns (payloads: seq<Candidate>)
    ensures payloads == Payloads(entries, q, subqueries)
  {
    payloads := [];
    for i := 0 to |entries|
      invariant payloads == Payloads(entries, q, subqueries)[..i]
    {
      payloads := payloads + [Payload(entries[i], q, subqueries)];
    }
  }

  method PickSources(candidates: seq<Candidate>, limit: int) returns (sources: seq<Source>)
    ensures sources == Numbered(SourcesOf(Selected(candidates, limit)))
  {
    var spans := SelectDiverseSources(SpanList(candidates), limit);
    SelectedAreCandidates(candidates, limit);
    sources := [];
    for i := 0 to |spans|
      invariant sources == Numbered(SourcesOf(Selected(candidates, limit)))[..i]
    {
      sources := sources + [candidates[At(candidates, spans[i])].source.(id := i + 1)];
    }
  }
}
