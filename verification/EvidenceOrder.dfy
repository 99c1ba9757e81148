/**
 In which order evidence is listed (nexus_research.py): anchors and queries by first occurrence, sources
 of equal strength and claims of equal score by where they stood before, and the two selection passes.
 */
module EvidenceOrder {
  import opened Common
  import opened Sorting
  import opened EvidenceSelection
  import opened EvidenceClaims
  import opened EvidenceTexts

  // ---------------------------------------------------------------------------------------------
  // First occurrences
  // ---------------------------------------------------------------------------------------------

  /** What is read later is listed later: the list of the first `k` queries begins the whole list. */
  lemma {:induction false} DedupeGrows(queries: seq<Query>, k: nat)
    requires k <= |queries|
    ensures Dedupe(queries[..k]) <= Dedupe(queries)
  {
    if k < |queries| {
      DedupeGrows(queries[..|queries| - 1], k);
      assert queries[..|queries| - 1][..k] == queries[..k];
    } else {
      assert queries[..k] == queries;
    }
  }

  /** And so for anchors, which fixes the order of the groups. */
  lemma {:induction false} AnchorsGrow(sources: seq<Source>, k: nat)
    requires k <= |sources|
    ensures AnchorsOf(sources[..k]) <= AnchorsOf(sources)
  {
    if k < |sources| {
      AnchorsGrow(sources[..|sources| - 1], k);
      assert sources[..|sources| - 1][..k] == sources[..k];
    } else {
      assert sources[..k] == sources;
    }
  }

  /** A group lists its sources in the order in which they came. */
  lemma {:induction false} GroupGrows(sources: seq<Source>, anchor: Anchor, k: nat)
    requires k <= |sources|
    ensures GroupOf(sources[..k], anchor) <= GroupOf(sources, anchor)
  {
    if k < |sources| {
      GroupGrows(sources[..|sources| - 1], anchor, k);
      assert sources[..|sources| - 1][..k] == sources[..k];
    } else {
      assert sources[..k] == sources;
    }
  }

  // ---------------------------------------------------------------------------------------------
  // Ties
  // ---------------------------------------------------------------------------------------------

  ghost predicate ComesEarlier(group: seq<Source>, a: Source, b: Source) {
    exists i, j :: 0 <= i < j < |group| && group[i] == a && group[j] == b
  }

  /** Of two sources the stronger comes first, and of equally strong ones the one that came earlier. */
  ghost predicate RanksOver(group: seq<Source>, a: Source, b: Source) {
    !AtLeastAsStrong(b, a) || (AtLeastAsStrong(a, b) && ComesEarlier(group, a, b))
  }

  lemma {:induction false} EarlierRanks(group: seq<Source>, i: nat)
    requires i < |group|
    ensures Leads(group[i], group[i + 1..], AtLeastAsStrong, (a: Source, b: Source) => RanksOver(group, a, b))
  {
    var later := group[i + 1..];
    forall j | 0 <= j < |later| ensures ComesEarlier(group, group[i], later[j]) {
      assert later[j] == group[i + 1 + j];
    }
  }

  /** The strength sort is stable: the lead is the earliest of the strongest sources. */
  lemma {:induction false} StrengthIsStable(group: seq<Source>, i: nat, j: nat)
    requires i < j < |group|
    ensures RanksOver(group, SortByStrength(group)[i], SortByStrength(group)[j])
  {
    ghost var ranks := (a: Source, b: Source) => RanksOver(group, a, b);
    forall k | 0 <= k < |group| ensures Leads(group[k], group[k + 1..], AtLeastAsStrong, ranks) {
      EarlierRanks(group, k);
    }
    SortOrders(group, AtLeastAsStrong, ranks);
    assert Pairwise(SortByStrength(group), ranks);
    assert ranks(SortByStrength(group)[i], SortByStrength(group)[j]);
  }

  /** By status, then by falling score, then by the text of the number it had before the sort. */
  ghost predicate IsListedBefore(a: Claim, b: Claim) {
    || IsBetterStatus(a.status, b.status)
    || (a.status == b.status && a.score > b.score)
    || (a.status == b.status && a.score == b.score && LexAtMost(Decimal(a.number), Decimal(b.number)))
  }

  lemma {:induction false} LexIsTotal(a: string, b: string)
    ensures LexAtMost(a, b) || LexAtMost(b, a)
  {
    if a != "" && b != "" {
      LexIsTotal(a[1..], b[1..]);
    }
  }

  lemma {:induction false} LexIsTransitive(a: string, b: string, c: string)
    requires LexAtMost(a, b) && LexAtMost(b, c)
    ensures LexAtMost(a, c)
  {
    if a != "" && b != "" && c != "" && a[0] == b[0] == c[0] {
      LexIsTransitive(a[1..], b[1..], c[1..]);
    }
  }

  lemma {:induction false} ListingAgrees(x: Claim, others: seq<Claim>)
    ensures Leads(x, others, ComesFirst, IsListedBefore)
  {
    forall j | 0 <= j < |others|
      ensures if ComesFirst(x, others[j]) then IsListedBefore(x, others[j]) else IsListedBefore(others[j], x)
    {
      LexIsTotal(Decimal(x.number), Decimal(others[j].number));
    }
    forall j, k |
      0 <= j < |others| && 0 <= k < |others| && ComesFirst(x, others[j]) && IsListedBefore(others[j], others[k])
      ensures IsListedBefore(x, others[k])
    {
      ListingCarries(x, others[j], others[k]);
    }
  }

  lemma {:induction false} ListingCarries(a: Claim, b: Claim, c: Claim)
    requires ComesFirst(a, b) && IsListedBefore(b, c)
    ensures IsListedBefore(a, c)
  {
    if a.status == b.status == c.status && a.score == b.score == c.score {
      LexIsTransitive(Decimal(a.number), Decimal(b.number), Decimal(c.number));
    }
  }

  /** The final order, ties included. */
  lemma {:induction false} ClaimsAreListed(claims: seq<Claim>, i: nat, j: nat)
    requires i < j < |claims|
    ensures IsListedBefore(SortClaims(claims)[i], SortClaims(claims)[j])
  {
    forall k | 0 <= k < |claims| ensures Leads(claims[k], claims[k + 1..], ComesFirst, IsListedBefore) {
      ListingAgrees(claims[k], claims[k + 1..]);
    }
    SortOrders(claims, ComesFirst, IsListedBefore);
    assert Pairwise(SortClaims(claims), IsListedBefore);
  }

  /** A claim carries its place in the final order as its number. */
  lemma {:induction false} ClaimsAreNumbered(sources: seq<Source>, cs: seq<Contradiction>, subqueries: nat, i: nat)
    requires i < |Claims(sources, cs, subqueries)|
    ensures Claims(sources, cs, subqueries)[i].number == i + 1
  {
  }

  // ---------------------------------------------------------------------------------------------
  // The two passes
  // ---------------------------------------------------------------------------------------------

  /** The first candidate of each file, in order. */
  ghost function FirstOfFiles(candidates: seq<Span>): seq<Span> {
    if candidates == [] then []
    else
      var n := |candidates| - 1;
      FirstOfFiles(candidates[..n]) + if candidates[n].file in FilesOf(candidates[..n]) then [] else [candidates[n]]
  }

  lemma {:induction false} FirstOfFilesCover(candidates: seq<Span>)
    ensures FilesOf(FirstOfFiles(candidates)) == FilesOf(candidates)
    ensures |FirstOfFiles(candidates)| == |FilesOf(candidates)|
  {
    if candidates != [] {
      var n := |candidates| - 1;
      FirstOfFilesCover(candidates[..n]);
      FilesAppend(FirstOfFiles(candidates[..n]), candidates[n]);
      assert FirstOfFiles(candidates[..n]) + [] == FirstOfFiles(candidates[..n]);
    }
  }

  /**
   The selection starts with the best candidate of each of the first files, until it has as many files as
   it aims for; with no more files than that it starts with the best candidate of every file.
   */
  lemma {:induction false} FirstPassLeadsByFile(candidates: seq<Span>, limit: int)
    requires limit > 0
    ensures var leads, target := FirstOfFiles(candidates), DiversityTarget(limit);
      if |leads| < target then FirstPass(candidates, limit) == leads
      else leads[..target] <= FirstPass(candidates, limit)
  {
    if candidates != [] {
      var n := |candidates| - 1;
      FirstPassLeadsByFile(candidates[..n], limit);
      FirstOfFilesCover(candidates[..n]);
      FirstPassWithin(candidates[..n], limit);
      var leads, target := FirstOfFiles(candidates[..n]), DiversityTarget(limit);
      var picked := FirstPass(candidates[..n], limit);
      if |leads| < target {
        assert leads + [] == leads;
        assert candidates[n] in picked ==> candidates[n].file in FilesOf(candidates[..n]);
      } else {
        assert FirstOfFiles(candidates)[..target] == leads[..target];
      }
    }
  }

  lemma {:induction false} FirstPassWithin(candidates: seq<Span>, limit: int)
    requires limit > 0
    ensures forall s :: s in FirstPass(candidates, limit) ==> s.file in FilesOf(candidates)
  {
    FirstPassPicks(candidates, limit);
    forall s | s in FirstPass(candidates, limit) ensures s.file in FilesOf(candidates) {
      var i :| 0 <= i < |FirstPass(candidates, limit)| && FirstPass(candidates, limit)[i] == s;
      var k :| 0 <= k < |candidates| && candidates[k] == s;
      FilesContain(candidates, k);
    }
  }

  /** The second pass fills up from the top: whatever it adds, every candidate before it is selected too. */
  lemma {:induction false} SecondPassFillsInOrder(picked: seq<Span>, candidates: seq<Span>, limit: int, i: nat, j: nat)
    requires i < j < |candidates|
    requires candidates[j] in SecondPass(picked, candidates, limit)
    requires candidates[j] !in SecondPass(picked, candidates[..j], limit)
    ensures candidates[i] in SecondPass(picked, candidates, limit)
  {
    SecondPassGrows(picked, candidates, limit, j);
    SecondPassGrows(picked, candidates, limit, i + 1);
    SecondPassGrows(picked, candidates[..j], limit, i + 1);
    assert candidates[..j][..i + 1] == candidates[..i + 1] && candidates[..i + 1][..i] == candidates[..i];
    if candidates[i] !in SecondPass(picked, candidates[..i + 1], limit) {
      FullSecondPass(picked, candidates, i + 1, limit);
    }
  }

  /** It only ever adds. */
  lemma {:induction false} SecondPassGrows(picked: seq<Span>, candidates: seq<Span>, limit: int, k: nat)
    requires k <= |candidates|
    ensures SecondPass(picked, candidates[..k], limit) <= SecondPass(picked, candidates, limit)
    ensures picked <= SecondPass(picked, candidates[..k], limit)
  {
    if k < |candidates| {
      SecondPassGrows(picked, candidates[..|candidates| - 1], limit, k);
      assert candidates[..|candidates| - 1][..k] == candidates[..k];
    } else {
      assert candidates[..k] == candidates;
      if k > 0 {
        SecondPassGrows(picked, candidates[..k - 1], limit, k - 1);
        assert candidates[..k - 1][..k - 1] == candidates[..k - 1];
      }
    }
  }
}
