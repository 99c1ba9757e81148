/**
 The inference latency analyzer (core/drivers/inference_latency_analyzer.py). Profiles are updated
 sample by sample and never look back, while the stored samples are trimmed; both are tied here to the
 full history of samples. Latencies are reals, of any sign, as the source accepts.
 */
module LatencyAnalysis {
  import opened Common
  import opened Sorting

  datatype ModelId = ModelId(name: string)

  const ANOMALY_THRESHOLD_MS := 30000.0

  datatype Sample = Sample(id: nat, model: ModelId, promptTokens: int, responseTokens: int, latency: real)

  predicate IsAnomalous(s: Sample) { s.latency > ANOMALY_THRESHOLD_MS }

  datatype Profile = Profile(
    model: ModelId, count: nat, total: real, min: real, max: real, promptTokens: int, responseTokens: int,
    anomalies: nat)

  function FirstProfile(s: Sample): Profile {
    Profile(s.model, 1, s.latency, s.latency, s.latency, s.promptTokens, s.responseTokens,
            if IsAnomalous(s) then 1 else 0)
  }

  function Extended(p: Profile, s: Sample): Profile {
    Profile(p.model, p.count + 1, p.total + s.latency,
            if s.latency < p.min then s.latency else p.min,
            if s.latency > p.max then s.latency else p.max,
            p.promptTokens + s.promptTokens, p.responseTokens + s.responseTokens,
            p.anomalies + if IsAnomalous(s) then 1 else 0)
  }

  function Mean(total: real, count: nat): real { if count == 0 then 0.0 else total / count as real }

  function Average(p: Profile): real { Mean(p.total, p.count) }

  // ---------------------------------------------------------------------------------------------
  // Recomputation from the history
  // ---------------------------------------------------------------------------------------------

  function OfModel(history: seq<Sample>, model: ModelId): seq<Sample> {
    if history == [] then []
    else
      var last := history[|history| - 1];
      OfModel(history[..|history| - 1], model) + if last.model == model then [last] else []
  }

  function SumLatency(samples: seq<Sample>): real {
    if samples == [] then 0.0 else SumLatency(samples[..|samples| - 1]) + samples[|samples| - 1].latency
  }

  function SumPrompt(samples: seq<Sample>): int {
    if samples == [] then 0 else SumPrompt(samples[..|samples| - 1]) + samples[|samples| - 1].promptTokens
  }

  function SumResponse(samples: seq<Sample>): int {
    if samples == [] then 0 else SumResponse(samples[..|samples| - 1]) + samples[|samples| - 1].responseTokens
  }

  function CountAnomalous(samples: seq<Sample>): nat {
    if samples == [] then 0
    else CountAnomalous(samples[..|samples| - 1]) + if IsAnomalous(samples[|samples| - 1]) then 1 else 0
  }

  /** The profile says of these samples what a recomputation would: count, sums, and attained bounds. */
  ghost predicate Describes(p: Profile, own: seq<Sample>) {
    && own != []
    && p.count == |own| && p.total == SumLatency(own)
    && p.promptTokens == SumPrompt(own) && p.responseTokens == SumResponse(own) && p.anomalies == CountAnomalous(own)
    && (forall i :: 0 <= i < |own| ==> p.min <= own[i].latency <= p.max)
    && (exists i :: 0 <= i < |own| && own[i].latency == p.min)
    && (exists i :: 0 <= i < |own| && own[i].latency == p.max)
  }

  lemma {:induction false} FirstDescribes(s: Sample)
    ensures Describes(FirstProfile(s), [s])
  {
    assert [s][..0] == [] && [s][0].latency == s.latency;
  }

  /** One more sample keeps a profile equal to the recomputation. */
  lemma {:induction false} ExtendedDescribes(p: Profile, own: seq<Sample>, s: Sample)
    requires Describes(p, own)
    ensures Describes(Extended(p, s), own + [s])
  {
    var after, q := own + [s], Extended(p, s);
    assert after[..|own|] == own && after[|own|] == s;
    var i :| 0 <= i < |own| && own[i].latency == p.min;
    var j :| 0 <= j < |own| && own[j].latency == p.max;
    assert after[i] == own[i] && after[j] == own[j];
    assert after[if s.latency < p.min then |own| else i].latency == q.min;
    assert after[if s.latency > p.max then |own| else j].latency == q.max;
  }

  lemma {:induction false} OfModelAppend(history: seq<Sample>, s: Sample, model: ModelId)
    ensures OfModel(history + [s], model) == if s.model == model then OfModel(history, model) + [s]
      else OfModel(history, model)
  {
    assert (history + [s])[..|history|] == history;
  }

  // ---------------------------------------------------------------------------------------------
  // Averages
  // ---------------------------------------------------------------------------------------------

  lemma {:induction false} SumIsBounded(own: seq<Sample>, lo: real, hi: real)
    requires forall i :: 0 <= i < |own| ==> lo <= own[i].latency <= hi
    ensures lo * |own| as real <= SumLatency(own) <= hi * |own| as real
  {
    if own != [] {
      var n := |own| - 1;
      SumIsBounded(own[..n], lo, hi);
      assert lo * |own| as real == lo * n as real + lo;
      assert hi * |own| as real == hi * n as real + hi;
    }
  }

  lemma {:induction false} DivideBounds(total: real, n: real, lo: real, hi: real)
    requires n > 0.0 && lo * n <= total <= hi * n
    ensures lo <= total / n <= hi
  {
    var q := total / n;
    assert (q - lo) * n == total - lo * n && (hi - q) * n == hi * n - total;
    NonNegativeFactor(q - lo, n);
    NonNegativeFactor(hi - q, n);
  }

  lemma {:induction false} NonNegativeFactor(x: real, n: real)
    requires n > 0.0 && x * n >= 0.0
    ensures x >= 0.0
  {
  }

  /** Every profile's average lies between its minimum and its maximum. */
  lemma {:induction false} AverageIsBetween(p: Profile, own: seq<Sample>)
    requires Describes(p, own)
    ensures p.min <= Average(p) <= p.max
  {
    SumIsBounded(own, p.min, p.max);
    DivideBounds(p.total, p.count as real, p.min, p.max);
  }

  function TotalLatency(ps: seq<Profile>): real {
    if ps == [] then 0.0 else ps[0].total + TotalLatency(ps[1..])
  }

  function TotalCount(ps: seq<Profile>): nat {
    if ps == [] then 0 else ps[0].count + TotalCount(ps[1..])
  }

  function TotalAnomalies(ps: seq<Profile>): nat {
    if ps == [] then 0 else ps[0].anomalies + TotalAnomalies(ps[1..])
  }

  lemma {:induction false} AverageTimesCount(p: Profile)
    requires p.count > 0
    ensures Average(p) * p.count as real == p.total
  {
  }

  lemma {:induction false} Distribute(a: real, m: real, n: real)
    ensures a * (m + n) == a * m + a * n
  {
  }

  lemma {:induction false} Scale(a: real, b: real, n: real)
    requires a <= b && n >= 0.0
    ensures a * n <= b * n
  {
  }

  lemma {:induction false} TotalsAreBounded(ps: seq<Profile>, lo: real, hi: real)
    requires forall i :: 0 <= i < |ps| ==> ps[i].count > 0 && lo <= Average(ps[i]) <= hi
    ensures lo * TotalCount(ps) as real <= TotalLatency(ps) <= hi * TotalCount(ps) as real
  {
    if ps != [] {
      TotalsAreBounded(ps[1..], lo, hi);
      AddBounds(ps[0], TotalCount(ps[1..]) as real, TotalLatency(ps[1..]), lo, hi);
      assert TotalCount(ps) as real == TotalCount(ps[1..]) as real + ps[0].count as real;
    }
  }

  lemma {:induction false} AddBounds(p: Profile, m: real, total: real, lo: real, hi: real)
    requires p.count > 0 && lo <= Average(p) <= hi && lo * m <= total <= hi * m
    ensures lo * (m + p.count as real) <= p.total + total <= hi * (m + p.count as real)
  {
    var n := p.count as real;
    AverageTimesCount(p);
    Scale(lo, Average(p), n);
    Scale(Average(p), hi, n);
    Distribute(lo, m, n);
    Distribute(hi, m, n);
  }

  /** One of the profiles has the least average of all, and one the greatest. */
  ghost predicate AreExtremes(ps: seq<Profile>, fastest: Profile, slowest: Profile) {
    && fastest in ps && slowest in ps
    && forall k :: 0 <= k < |ps| ==> Average(fastest) <= Average(ps[k]) <= Average(slowest)
  }

  ghost predicate LeadsAt(ps: seq<Profile>, i: nat) {
    i < |ps| && forall k :: 0 <= k < i ==> Average(ps[k]) > Average(ps[i])
  }

  ghost predicate TrailsAt(ps: seq<Profile>, i: nat) {
    i < |ps| && forall k :: 0 <= k < i ==> Average(ps[k]) < Average(ps[i])
  }

  /** Among equally fast models the one first seen is reported, and so for the slow ones. */
  ghost predicate IsFirstFastest(ps: seq<Profile>, p: Profile) { exists i: nat :: LeadsAt(ps, i) && ps[i] == p }

  ghost predicate IsFirstSlowest(ps: seq<Profile>, p: Profile) { exists i: nat :: TrailsAt(ps, i) && ps[i] == p }

  /** The overall average lies between the fastest and the slowest model's average. */
  lemma {:induction false} OverallIsBetween(ps: seq<Profile>, fastest: Profile, slowest: Profile)
    requires ps != [] && forall i :: 0 <= i < |ps| ==> ps[i].count > 0
    requires AreExtremes(ps, fastest, slowest)
    ensures Average(fastest) <= Mean(TotalLatency(ps), TotalCount(ps)) <= Average(slowest)
  {
    MeanIsBetween(ps, Average(fastest), Average(slowest));
  }

  lemma {:induction false} MeanIsBetween(ps: seq<Profile>, lo: real, hi: real)
    requires ps != [] && forall i :: 0 <= i < |ps| ==> ps[i].count > 0 && lo <= Average(ps[i]) <= hi
    ensures lo <= Mean(TotalLatency(ps), TotalCount(ps)) <= hi
  {
    TotalsAreBounded(ps, lo, hi);
    assert TotalCount(ps) >= ps[0].count;
    DivideBounds(TotalLatency(ps), TotalCount(ps) as real, lo, hi);
  }

  // ---------------------------------------------------------------------------------------------
  // The profiles together cover the history
  // ---------------------------------------------------------------------------------------------

  /** The position of a model's profile, or the number of profiles. */
  function IndexOf(ps: seq<Profile>, model: ModelId): (i: nat)
    ensures i <= |ps|
    ensures i < |ps| ==> ps[i].model == model
    ensures forall k :: 0 <= k < i ==> ps[k].model != model
  {
    FirstAt(ps, (p: Profile) => p.model, model)
  }

  predicate Has(ps: seq<Profile>, model: ModelId) { IndexOf(ps, model) < |ps| }

  ghost predicate DistinctModels(ps: seq<Profile>) {
    forall i, j :: 0 <= i < j < |ps| ==> ps[i].model != ps[j].model
  }

  ghost predicate AllDescribe(ps: seq<Profile>, history: seq<Sample>) {
    forall i :: 0 <= i < |ps| ==> Describes(ps[i], OfModel(history, ps[i].model))
  }

  ghost predicate AllKnown(ps: seq<Profile>, history: seq<Sample>) {
    forall k :: 0 <= k < |history| ==> Has(ps, history[k].model)
  }

  /** One profile per model that occurs, each equal to the recomputation over its own samples. */
  ghost predicate Covers(ps: seq<Profile>, history: seq<Sample>) {
    DistinctModels(ps) && AllDescribe(ps, history) && AllKnown(ps, history)
  }

  /** The profiles after a sample. */
  function Recorded(ps: seq<Profile>, s: Sample): seq<Profile> {
    var i := IndexOf(ps, s.model);
    if i == |ps| then ps + [FirstProfile(s)] else ps[i := Extended(ps[i], s)]
  }

  lemma {:induction false} NoSamplesOf(history: seq<Sample>, model: ModelId)
    requires forall k :: 0 <= k < |history| ==> history[k].model != model
    ensures OfModel(history, model) == []
  {
    if history != [] {
      NoSamplesOf(history[..|history| - 1], model);
    }
  }

  lemma {:induction false} RecordedModels(ps: seq<Profile>, s: Sample)
    requires DistinctModels(ps)
    ensures DistinctModels(Recorded(ps, s))
    ensures forall k :: 0 <= k < |ps| ==> Recorded(ps, s)[k].model == ps[k].model
    ensures Has(Recorded(ps, s), s.model)
  {
    assert Recorded(ps, s)[IndexOf(ps, s.model)].model == s.model;
  }

  /** Recording a sample keeps the profiles equal to the recomputation over the full history. */
  lemma {:induction false} RecordingCovers(ps: seq<Profile>, history: seq<Sample>, s: Sample)
    requires Covers(ps, history)
    ensures Covers(Recorded(ps, s), history + [s])
  {
    RecordedModels(ps, s);
    RecordingDescribes(ps, history, s);
    var after, longer := Recorded(ps, s), history + [s];
    forall k | 0 <= k < |longer| ensures Has(after, longer[k].model) {
      if k < |history| {
      }
    }
  }

  lemma {:induction false} RecordingDescribes(ps: seq<Profile>, history: seq<Sample>, s: Sample)
    requires Covers(ps, history)
    ensures AllDescribe(Recorded(ps, s), history + [s])
  {
    var i, after, longer := IndexOf(ps, s.model), Recorded(ps, s), history + [s];
    forall j | 0 <= j < |after| ensures Describes(after[j], OfModel(longer, after[j].model)) {
      OfModelAppend(history, s, after[j].model);
      if j == i < |ps| {
        ExtendedDescribes(ps[i], OfModel(history, s.model), s);
      } else if j == |ps| {
        NewModelDescribes(ps, history, s);
      } else {
        assert after[j] == ps[j] && ps[j].model != s.model;
        assert Describes(ps[j], OfModel(history, ps[j].model));
      }
    }
  }

  lemma {:induction false} NewModelDescribes(ps: seq<Profile>, history: seq<Sample>, s: Sample)
    requires AllKnown(ps, history) && !Has(ps, s.model)
    ensures Describes(FirstProfile(s), OfModel(history, s.model) + [s])
  {
    forall k | 0 <= k < |history| ensures history[k].model != s.model {
      assert Has(ps, history[k].model);
    }
    NoSamplesOf(history, s.model);
    FirstDescribes(s);
    assert [] + [s] == [s];
  }

  ghost function SumOfCounts(history: seq<Sample>, ps: seq<Profile>): nat {
    if ps == [] then 0 else |OfModel(history, ps[0].model)| + SumOfCounts(history, ps[1..])
  }

  ghost function SumOfLatencies(history: seq<Sample>, ps: seq<Profile>): real {
    if ps == [] then 0.0 else SumLatency(OfModel(history, ps[0].model)) + SumOfLatencies(history, ps[1..])
  }

  lemma {:induction false} FirstIsAlone(ps: seq<Profile>)
    requires DistinctModels(ps) && ps != []
    ensures !Has(ps[1..], ps[0].model)
  {
    assert forall k :: 0 <= k < |ps[1..]| ==> ps[1..][k].model != ps[0].model;
  }

  lemma {:induction false} SumsFollowAppend(history: seq<Sample>, s: Sample, ps: seq<Profile>)
    requires DistinctModels(ps)
    ensures SumOfCounts(history + [s], ps) == SumOfCounts(history, ps) + (if Has(ps, s.model) then 1 else 0)
    ensures SumOfLatencies(history + [s], ps) == SumOfLatencies(history, ps)
      + (if Has(ps, s.model) then s.latency else 0.0)
  {
    if ps != [] {
      var own, rest := OfModel(history, ps[0].model), ps[1..];
      SumsFollowAppend(history, s, rest);
      OfModelAppend(history, s, ps[0].model);
      assert (own + [s])[..|own|] == own;
      FirstIsAlone(ps);
    }
  }

  lemma {:induction false} SumsOverHistory(history: seq<Sample>, ps: seq<Profile>)
    requires DistinctModels(ps) && AllKnown(ps, history)
    ensures SumOfCounts(history, ps) == |history| && SumOfLatencies(history, ps) == SumLatency(history)
  {
    if history == [] {
      SumsOverNothing(ps);
    } else {
      var n := |history| - 1;
      SumsOverHistory(history[..n], ps);
      SumsFollowAppend(history[..n], history[n], ps);
      assert history[..n] + [history[n]] == history;
    }
  }

  lemma {:induction false} SumsOverNothing(ps: seq<Profile>)
    ensures SumOfCounts([], ps) == 0 && SumOfLatencies([], ps) == 0.0
  {
    if ps != [] {
      SumsOverNothing(ps[1..]);
    }
  }

  lemma {:induction false} TotalsMatchSums(history: seq<Sample>, ps: seq<Profile>)
    requires AllDescribe(ps, history)
    ensures TotalCount(ps) == SumOfCounts(history, ps) && TotalLatency(ps) == SumOfLatencies(history, ps)
  {
    if ps != [] {
      assert Describes(ps[0], OfModel(history, ps[0].model));
      TotalsMatchSums(history, ps[1..]);
    }
  }

  /** The profiles' totals are the totals of the full history, evicted samples included. */
  lemma {:induction false} TotalsAreOfFullHistory(ps: seq<Profile>, history: seq<Sample>)
    requires Covers(ps, history)
    ensures TotalCount(ps) == |history| && TotalLatency(ps) == SumLatency(history)
  {
    TotalsMatchSums(history, ps);
    SumsOverHistory(history, ps);
  }

  lemma {:induction false} CountsArePositive(ps: seq<Profile>, history: seq<Sample>)
    requires AllDescribe(ps, history)
    ensures forall k :: 0 <= k < |ps| ==> ps[k].count > 0
  {
    forall k | 0 <= k < |ps| ensures ps[k].count > 0 {
      assert Describes(ps[k], OfModel(history, ps[k].model));
    }
  }

  /** There is a profile exactly when there is a sample. */
  lemma {:induction false} CoverIsEmptyTogether(ps: seq<Profile>, history: seq<Sample>)
    requires Covers(ps, history)
    ensures ps == [] <==> history == []
  {
    if ps != [] {
      assert Describes(ps[0], OfModel(history, ps[0].model));
    }
    if history != [] {
      assert Has(ps, history[0].model);
    }
  }

  /**
   The overall average that the statistics report is the average over the full history, evicted
   samples included, and it lies between the averages of the fastest and the slowest model.
   */
  lemma {:induction false} OverallAverage(ps: seq<Profile>, history: seq<Sample>, fastest: Profile, slowest: Profile)
    requires Covers(ps, history) && history != [] && AreExtremes(ps, fastest, slowest)
    ensures Mean(TotalLatency(ps), TotalCount(ps)) == Mean(SumLatency(history), |history|)
    ensures Average(fastest) <= Mean(SumLatency(history), |history|) <= Average(slowest)
  {
    TotalsAreOfFullHistory(ps, history);
    CoverIsEmptyTogether(ps, history);
    CountsArePositive(ps, history);
    OverallIsBetween(ps, fastest, slowest);
  }

  // ---------------------------------------------------------------------------------------------
  // Ranking
  // ---------------------------------------------------------------------------------------------

  predicate NotSlower(p: Profile, q: Profile) { Average(p) <= Average(q) }

  /** The stable library sort by average latency. */
  function SortByAverage(ps: seq<Profile>): seq<Profile> { Sort(ps, NotSlower) }

  lemma {:induction false} SortIsAscending(ps: seq<Profile>)
    ensures Pairwise(SortByAverage(ps), NotSlower) && multiset(SortByAverage(ps)) == multiset(ps)
  {
    SortPermutes(ps, NotSlower);
    SortOrders(ps, NotSlower, NotSlower);
  }

  /** The slice `[:limit]`, for any sign of the limit. */
  function TakeSlice(ps: seq<Profile>, limit: int): seq<Profile> {
    ps[..Max(0, Min(|ps|, if limit < 0 then |ps| + limit else limit))]
  }

  /** What `get_fastest_models` returns: ascending, and nothing left out is faster than anything taken. */
  lemma {:induction false} FastestAreFirst(ps: seq<Profile>, limit: int, i: nat, q: Profile)
    requires i < |TakeSlice(SortByAverage(ps), limit)|
    requires q in ps && q !in TakeSlice(SortByAverage(ps), limit)
    ensures TakeSlice(SortByAverage(ps), limit)[i] in ps
    ensures Average(TakeSlice(SortByAverage(ps), limit)[i]) <= Average(q)
  {
    var sorted := SortByAverage(ps);
    SortIsAscending(ps);
    assert q in multiset(sorted) && sorted[i] in multiset(ps);
    var j :| 0 <= j < |sorted| && sorted[j] == q;
    assert TakeSlice(sorted, limit)[i] == sorted[i];
    assert j >= |TakeSlice(sorted, limit)|;
    assert NotSlower(sorted[i], sorted[j]);
  }

  /**
   How many models the ranking lists: the limit when there are as many, or all but the last few for a
   negative one.
   */
  lemma {:induction false} RankingSize(ps: seq<Profile>, limit: int)
    ensures var n := |TakeSlice(SortByAverage(ps), limit)|;
      if limit >= |ps| then n == |ps|
      else if limit >= 0 then n == limit
      else if -limit <= |ps| then n == |ps| + limit
      else n == 0
  {
  }

  ghost predicate IsSeenEarlier(ps: seq<Profile>, a: Profile, b: Profile) {
    exists i, j :: 0 <= i < j < |ps| && ps[i] == a && ps[j] == b
  }

  /** Of two models the faster comes first, and of equally fast ones the one seen earlier. */
  ghost predicate RanksOver(ps: seq<Profile>, a: Profile, b: Profile) {
    Average(a) < Average(b) || (Average(a) == Average(b) && IsSeenEarlier(ps, a, b))
  }

  lemma {:induction false} EarlierRanks(ps: seq<Profile>, i: nat)
    requires i < |ps|
    ensures Leads(ps[i], ps[i + 1..], NotSlower, (a: Profile, b: Profile) => RanksOver(ps, a, b))
  {
    var later := ps[i + 1..];
    forall j | 0 <= j < |later| ensures IsSeenEarlier(ps, ps[i], later[j]) {
      assert later[j] == ps[i + 1 + j];
    }
  }

  lemma {:induction false} RankingIsStable(ps: seq<Profile>, i: nat, j: nat)
    requires i < j < |ps|
    ensures RanksOver(ps, SortByAverage(ps)[i], SortByAverage(ps)[j])
  {
    ghost var ranks := (a: Profile, b: Profile) => RanksOver(ps, a, b);
    forall k | 0 <= k < |ps| ensures Leads(ps[k], ps[k + 1..], NotSlower, ranks) {
      EarlierRanks(ps, k);
    }
    SortOrders(ps, NotSlower, ranks);
    assert Pairwise(SortByAverage(ps), ranks);
    assert ranks(SortByAverage(ps)[i], SortByAverage(ps)[j]);
  }

  // ---------------------------------------------------------------------------------------------
  // Counts over the history
  // ---------------------------------------------------------------------------------------------

  lemma {:induction false} OwnSamplesAreCounted(history: seq<Sample>, model: ModelId)
    ensures |OfModel(history, model)| == |Positions(history, (s: Sample) => s.model == model)|
    ensures CountAnomalous(OfModel(history, model))
            == |Positions(history, (s: Sample) => s.model == model && s.latency > 30000.0)|
  {
    if history != [] {
      var n := |history| - 1;
      var earlier := OfModel(history[..n], model);
      OwnSamplesAreCounted(history[..n], model);
      PositionsGrow(history, (s: Sample) => s.model == model);
      PositionsGrow(history, (s: Sample) => s.model == model && s.latency > 30000.0);
      assert (earlier + [history[n]])[..|earlier|] == earlier && earlier + [] == earlier;
    }
  }

  /** A profile counts the samples of its model in the full history, and those of them over thirty seconds. */
  lemma {:induction false} ProfilesCountHistory(ps: seq<Profile>, history: seq<Sample>, i: nat)
    requires Covers(ps, history) && i < |ps|
    ensures ps[i].count == |Positions(history, (s: Sample) => s.model == ps[i].model)|
    ensures ps[i].anomalies == |Positions(history, (s: Sample) => s.model == ps[i].model && s.latency > 30000.0)|
  {
    OwnSamplesAreCounted(history, ps[i].model);
    assert Describes(ps[i], OfModel(history, ps[i].model));
  }

  // ---------------------------------------------------------------------------------------------
  // The analyzer
  // ---------------------------------------------------------------------------------------------

  lemma {:induction false} LastNAppend(history: seq<Sample>, s: Sample, n: int)
    requires n >= 1
    ensures var kept := LastN(history, n);
      LastN(history + [s], n) == if |kept| < n then kept + [s] else kept[1..] + [s]
  {
  }

  class ModelLatencyProfile {
    const model: ModelId
    var count: nat
    var total: real
    var min: real
    var max: real
    var promptTokens: int
    var responseTokens: int
    var anomalies: nat

    constructor (s: Sample)
      ensures Snapshot() == FirstProfile(s)
    {
      model, count, total, min, max := s.model, 1, s.latency, s.latency, s.latency;
      promptTokens, responseTokens, anomalies := s.promptTokens, s.responseTokens, if IsAnomalous(s) then 1 else 0;
    }

    function Snapshot(): Profile
      reads this
    {
      Profile(model, count, total, min, max, promptTokens, responseTokens, anomalies)
    }

    method Extend(s: Sample)
      modifies this
      ensures Snapshot() == Extended(old(Snapshot()), s)
    {
      count := count + 1;
      total := total + s.latency;
      promptTokens := promptTokens + s.promptTokens;
      responseTokens := responseTokens + s.responseTokens;
      if s.latency < min {
        min := s.latency;
      }
      if s.latency > max {
        max := s.latency;
      }
      if IsAnomalous(s) {
        anomalies := anomalies + 1;
      }
    }
  }

  class InferenceLatencyAnalyzer {
    const maxSamples: int
    var samples: seq<Sample>
    /** The profiles dictionary, as its values in insertion order. */
    var profiles: seq<ModelLatencyProfile>
    var counter: nat
    /** Every sample recorded since the last clear. */
    ghost var history: seq<Sample>

    ghost function Profiles(): (r: seq<Profile>)
      reads this`profiles, profiles
      ensures |r| == |profiles|
    {
      var entries := profiles;
      seq(|entries|, i requires 0 <= i < |entries| reads entries => entries[i].Snapshot())
    }

    /** Profiles are of the whole history; the stored samples are its tail. */
    ghost predicate Valid()
      reads this, profiles
    {
      && Covers(Profiles(), history)
      && counter == |history|
      && samples == if maxSamples >= 1 then LastN(history, maxSamples) else []
    }

    constructor (maxSamples: int)
      ensures Valid() && history == [] && this.maxSamples == maxSamples
    {
      this.maxSamples := maxSamples;
      samples, profiles, counter, history := [], [], 0, [];
      new;
      assert Profiles() == [];
    }

    /**
     Returns false when the source raises an index error, which happens when the capacity is below one:
     the profile has then been updated and no sample is stored.
     */
    method RecordSample(
      model: ModelId, latency: real, promptTokens: int, responseTokens: int)
      returns (stored: bool, sample: Sample)
      requires Valid()
      modifies this, profiles
      ensures Valid()
      ensures sample == Sample(old(counter), model, promptTokens, responseTokens, latency)
      ensures history == old(history) + [sample]
      ensures Profiles() == Recorded(old(Profiles()), sample)
      ensures stored == (maxSamples >= 1)
    {
      sample := Sample(counter, model, promptTokens, responseTokens, latency);
      ghost var ps := Profiles();
      RecordingCovers(ps, history, sample);
      UpdateProfile(sample);
      stored := Remember(sample);
      assert Profiles() == Recorded(ps, sample);
    }

    /** The sample joins the history, and what is stored stays its tail. */
    method Remember(s: Sample) returns (stored: bool)
      requires samples == if maxSamples >= 1 then LastN(history, maxSamples) else []
      modifies this`samples, this`counter, this`history
      ensures samples == if maxSamples >= 1 then LastN(history, maxSamples) else []
      ensures history == old(history) + [s] && counter == old(counter) + 1
      ensures stored == (maxSamples >= 1)
    {
      if maxSamples >= 1 {
        LastNAppend(history, s, maxSamples);
      }
      counter := counter + 1;
      history := history + [s];
      stored := StoreSample(s);
    }

    /** First in, first out, once the capacity is reached. */
    method StoreSample(s: Sample) returns (stored: bool)
      modifies this`samples
      ensures stored == !(|old(samples)| == 0 && maxSamples <= 0)
      ensures samples ==
        if |old(samples)| < maxSamples then old(samples) + [s]
        else if |old(samples)| == 0 then []
        else old(samples)[1..] + [s]
    {
      if |samples| >= maxSamples {
        if |samples| == 0 {
          return false;
        }
        samples := samples[1..];
      }
      samples := samples + [s];
      return true;
    }

    method UpdateProfile(s: Sample)
      requires DistinctModels(Profiles())
      modifies this`profiles, profiles
      ensures Profiles() == Recorded(old(Profiles()), s)
    {
      var i := Find(s.model);
      if i == |profiles| {
        var p := new ModelLatencyProfile(s);
        profiles := profiles + [p];
      } else {
        forall k | 0 <= k < |profiles| && k != i ensures profiles[k] != profiles[i] {
          assert Profiles()[k].model != Profiles()[i].model;
        }
        profiles[i].Extend(s);
      }
    }

    /** The dictionary lookup. */
    method Find(model: ModelId) returns (i: nat)
      ensures i == IndexOf(Profiles(), model)
    {
      i := 0;
      while i < |profiles| && profiles[i].model != model
        invariant i <= |profiles|
        invariant forall k :: 0 <= k < i ==> Profiles()[k].model != model
      {
        i := i + 1;
      }
      assert i < |profiles| ==> Profiles()[i].model == model;
    }

    /** The aggregate statistics; `OverallAverage` says what they mean. */
    method GetStats()
      returns (stored: nat, models: nat, anomalies: nat, overall: real, fastest: Option<Profile>,
        slowest: Option<Profile>)
      ensures stored == |samples| && models == |Profiles()| && anomalies == TotalAnomalies(Profiles())
      ensures overall == Mean(TotalLatency(Profiles()), TotalCount(Profiles()))
      ensures Profiles() == [] ==> overall == 0.0
      ensures fastest.Some? == slowest.Some? == (Profiles() != [])
      ensures Profiles() != [] ==>
        && AreExtremes(Profiles(), fastest.value, slowest.value)
        && IsFirstFastest(Profiles(), fastest.value) && IsFirstSlowest(Profiles(), slowest.value)
    {
      stored, models := |samples|, |profiles|;
      var totalLatency, totalCount;
      totalLatency, totalCount, anomalies := SumProfiles();
      fastest, slowest := FindExtremes();
      overall := Mean(totalLatency, totalCount);
    }

    method SumProfiles() returns (latency: real, count: nat, anomalies: nat)
      ensures latency == TotalLatency(Profiles()) && count == TotalCount(Profiles()) &&
        anomalies == TotalAnomalies(Profiles())
    {
      latency, count, anomalies := 0.0, 0, 0;
      ghost var ps := Profiles();
      for i := 0 to |profiles|
        invariant latency + TotalLatency(ps[i..]) == TotalLatency(ps)
        invariant count + TotalCount(ps[i..]) == TotalCount(ps)
        invariant anomalies + TotalAnomalies(ps[i..]) == TotalAnomalies(ps)
      {
        assert ps[i..][1..] == ps[i + 1..];
        latency := latency + profiles[i].total;
        count := count + profiles[i].count;
        anomalies := anomalies + profiles[i].anomalies;
      }
    }

    /** The first profile of least and the first of greatest average. */
    method FindExtremes() returns (fastest: Option<Profile>, slowest: Option<Profile>)
      ensures fastest.Some? == slowest.Some? == (Profiles() != [])
      ensures Profiles() != [] ==>
        && AreExtremes(Profiles(), fastest.value, slowest.value)
        && IsFirstFastest(Profiles(), fastest.value) && IsFirstSlowest(Profiles(), slowest.value)
    {
      fastest, slowest := None, None;
      ghost var ps := Profiles();
      ghost var f, g := 0, 0;
      for i := 0 to |profiles|
        invariant fastest.Some? == slowest.Some? == (i > 0)
        invariant i > 0 ==> LeadsAt(ps, f) && ps[f] == fastest.value && TrailsAt(ps, g) && ps[g] == slowest.value
        invariant forall k :: 0 <= k < i ==> Average(fastest.value) <= Average(ps[k]) <= Average(slowest.value)
      {
        var p := profiles[i].Snapshot();
        assert p == ps[i];
        if fastest.None? || Average(p) < Average(fastest.value) {
          fastest, f := Some(p), i;
        }
        if slowest.None? || Average(p) > Average(slowest.value) {
          slowest, g := Some(p), i;
        }
      }
    }

    method GetFastestModels(limit: int) returns (fastest: seq<Profile>)
      ensures fastest == TakeSlice(SortByAverage(Profiles()), limit)
    {
      var all: seq<Profile> := [];
      for i := 0 to |profiles|
        invariant all == Profiles()[..i]
      {
        all := all + [profiles[i].Snapshot()];
      }
      assert all == Profiles();
      return TakeSlice(SortByAverage(all), limit);
    }

    method Clear()
      modifies this
      ensures Valid() && history == []
    {
      samples, profiles, counter, history := [], [], 0, [];
      assert Profiles() == [];
    }
  }

}
