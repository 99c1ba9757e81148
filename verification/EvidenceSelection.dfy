/**
 Retrieval aggregation and diverse selection (nexus_research.py). Hits are folded into one candidate
 per text span, and the two-pass selection spreads its picks over files before it fills up by rank.
 */
module EvidenceSelection {
  import opened Common

  datatype File = File(path: string)

  datatype Span = Span(file: File, startLine: int, endLine: int)

  // ---------------------------------------------------------------------------------------------
  // Two-pass selection
  // ---------------------------------------------------------------------------------------------

  function SpansOf(ss: seq<Span>): set<Span> { set s | s in ss }

  function FilesOf(ss: seq<Span>): (fs: set<File>) {
    if ss == [] then {} else FilesOf(ss[..|ss| - 1]) + {ss[|ss| - 1].file}
  }

  function DiversityTarget(limit: int): int { Max(1, Min(limit, 3)) }

  /** The first pass on one candidate: until enough files are seen, a file already seen is passed over. */
  function FirstPassStep(picked: seq<Span>, s: Span, limit: int): seq<Span> {
    if |picked| >= limit || s in picked then picked
    else if |FilesOf(picked)| < DiversityTarget(limit) && s.file in FilesOf(picked) then picked
    else picked + [s]
  }

  function FirstPass(candidates: seq<Span>, limit: int): seq<Span> {
    if candidates == [] then []
    else FirstPassStep(FirstPass(candidates[..|candidates| - 1], limit), candidates[|candidates| - 1], limit)
  }

  /** The second pass fills up in order, whatever the file. */
  function SecondPassStep(picked: seq<Span>, s: Span, limit: int): seq<Span> {
    if |picked| >= limit || s in picked then picked else picked + [s]
  }

  function SecondPass(picked: seq<Span>, candidates: seq<Span>, limit: int): seq<Span> {
    if candidates == [] then picked
    else SecondPassStep(SecondPass(picked, candidates[..|candidates| - 1], limit), candidates[|candidates| - 1], limit)
  }

  /** What `_select_diverse_sources` returns. A candidate stands for its span, which is its key. */
  function Diverse(candidates: seq<Span>, limit: int): seq<Span> {
    if limit <= 0 then [] else SecondPass(FirstPass(candidates, limit), candidates, limit)
  }

  lemma {:induction false} FilesAppend(ss: seq<Span>, s: Span)
    ensures FilesOf(ss + [s]) == FilesOf(ss) + {s.file}
  {
    assert (ss + [s])[..|ss|] == ss;
  }

  lemma {:induction false} FilesContain(ss: seq<Span>, i: nat)
    requires i < |ss|
    ensures ss[i].file in FilesOf(ss)
  {
    if i < |ss| - 1 {
      FilesContain(ss[..|ss| - 1], i);
    }
  }

  lemma {:induction false} FilesWithin(ss: seq<Span>, files: set<File>)
    requires forall i :: 0 <= i < |ss| ==> ss[i].file in files
    ensures FilesOf(ss) <= files
  {
    if ss != [] {
      FilesWithin(ss[..|ss| - 1], files);
    }
  }

  lemma {:induction false} SubsetIsSmaller<T>(a: set<T>, b: set<T>)
    requires a <= b
    ensures |a| <= |b|
  {
    assert b == a + (b - a);
  }

  /** The first pass keeps distinct picks from the candidates, the top candidate first. */
  lemma {:induction false} FirstPassPicks(candidates: seq<Span>, limit: int)
    requires limit > 0
    ensures var picked := FirstPass(candidates, limit);
      && NoDup(picked) && |picked| <= limit
      && (forall i :: 0 <= i < |picked| ==> picked[i] in candidates)
      && (candidates != [] ==> picked != [] && picked[0] == candidates[0])
  {
    if candidates != [] {
      var n := |candidates| - 1;
      FirstPassPicks(candidates[..n], limit);
      assert forall i :: 0 <= i < n ==> candidates[..n][i] == candidates[i];
      assert n == 0 ==> candidates[..n] == [];
    }
  }

  /** While few files are seen, there is one pick for each of them, and no candidate's file is missed. */
  ghost predicate Spread(picked: seq<Span>, candidates: seq<Span>, limit: int) {
    |FilesOf(picked)| < DiversityTarget(limit) ==>
      && |FilesOf(picked)| == |picked|
      && forall i :: 0 <= i < |candidates| ==> candidates[i].file in FilesOf(picked)
  }

  lemma {:induction false} SpreadStep(picked: seq<Span>, candidates: seq<Span>, s: Span, limit: int)
    requires limit > 0 && Spread(picked, candidates, limit)
    ensures Spread(FirstPassStep(picked, s, limit), candidates + [s], limit)
  {
    var after, more := FirstPassStep(picked, s, limit), candidates + [s];
    FilesAppend(picked, s);
    SubsetIsSmaller(FilesOf(picked), FilesOf(after));
    if s in picked {
      var i :| 0 <= i < |picked| && picked[i] == s;
      FilesContain(picked, i);
    }
    if |FilesOf(after)| < DiversityTarget(limit) {
      assert s.file in FilesOf(after);
      forall i | 0 <= i < |more| ensures more[i].file in FilesOf(after) {
        assert i < |candidates| ==> more[i] == candidates[i];
      }
    }
  }

  lemma {:induction false} FirstPassSpreads(candidates: seq<Span>, limit: int)
    requires limit > 0
    ensures Spread(FirstPass(candidates, limit), candidates, limit)
  {
    if candidates != [] {
      var n := |candidates| - 1;
      FirstPassSpreads(candidates[..n], limit);
      SpreadStep(FirstPass(candidates[..n], limit), candidates[..n], candidates[n], limit);
      assert candidates[..n] + [candidates[n]] == candidates;
    }
  }

  /** What the second pass keeps: its start as a prefix, distinct picks, and no candidate missed while there is room. */
  lemma {:induction false} SecondPassFills(picked: seq<Span>, candidates: seq<Span>, all: seq<Span>, limit: int)
    requires NoDup(picked) && |picked| <= limit && limit > 0
    requires forall i :: 0 <= i < |picked| ==> picked[i] in all
    requires forall i :: 0 <= i < |candidates| ==> candidates[i] in all
    ensures var filled := SecondPass(picked, candidates, limit);
      && picked <= filled && NoDup(filled) && |filled| <= limit
      && (forall i :: 0 <= i < |filled| ==> filled[i] in all)
      && (|filled| < limit ==> forall i :: 0 <= i < |candidates| ==> candidates[i] in filled)
  {
    if candidates != [] {
      SecondPassFills(picked, candidates[..|candidates| - 1], all, limit);
    }
  }

  /**
   For any candidates and positive limit, the selection holds as many spans as the limit and the number
   of distinct spans allow, repeats none, starts with the top candidate, and covers at least as many
   files as three, the limit and the candidates allow.
   */
  lemma {:induction false} SelectionIsDiverse(candidates: seq<Span>, limit: int)
    requires limit > 0
    ensures var r := Diverse(candidates, limit);
      && NoDup(r) && SpansOf(r) <= SpansOf(candidates)
      && |r| == Min(limit, |SpansOf(candidates)|)
      && (candidates != [] ==> r != [] && r[0] == candidates[0])
      && |FilesOf(r)| >= Min(Min(limit, 3), |FilesOf(candidates)|)
  {
    var first, r := FirstPass(candidates, limit), Diverse(candidates, limit);
    FirstPassPicks(candidates, limit);
    FirstPassSpreads(candidates, limit);
    SecondPassFills(first, candidates, candidates, limit);
    SelectionSize(candidates, r, limit);
    forall i | 0 <= i < |first| ensures first[i].file in FilesOf(r) {
      assert r[i] == first[i];
      FilesContain(r, i);
    }
    FilesWithin(first, FilesOf(r));
    SubsetIsSmaller(FilesOf(first), FilesOf(r));
    if |FilesOf(first)| < DiversityTarget(limit) {
      FilesWithin(candidates, FilesOf(first));
      SubsetIsSmaller(FilesOf(candidates), FilesOf(first));
    }
  }

  lemma {:induction false} SelectionSize(candidates: seq<Span>, r: seq<Span>, limit: int)
    requires limit > 0 && NoDup(r) && |r| <= limit
    requires forall i :: 0 <= i < |r| ==> r[i] in candidates
    requires |r| < limit ==> forall i :: 0 <= i < |candidates| ==> candidates[i] in r
    ensures SpansOf(r) <= SpansOf(candidates)
    ensures |r| == Min(limit, |SpansOf(candidates)|)
  {
    NoDupCardinality(r);
    assert Elements(r) == SpansOf(r);
    SubsetIsSmaller(SpansOf(r), SpansOf(candidates));
    if |r| < limit {
      assert SpansOf(candidates) == SpansOf(r);
    }
  }

  method SelectDiverseSources(candidates: seq<Span>, limit: int) returns (selected: seq<Span>)
    ensures selected == Diverse(candidates, limit)
  {
    if limit <= 0 {
      return [];
    }
    selected := [];
    var selectedKeys: set<Span> := {};
    var seenFiles: set<File> := {};
    var diversityTarget := Max(1, Min(limit, 3));
    for i := 0 to |candidates|
      invariant selected == FirstPass(candidates[..i], limit) && |selected| < limit
      invariant forall s :: s in selectedKeys <==> s in selected
      invariant seenFiles == FilesOf(selected)
    {
      assert candidates[..i + 1][..i] == candidates[..i];
      var source := candidates[i];
      if source in selectedKeys {
        continue;
      }
      if |seenFiles| < diversityTarget && source.file in seenFiles {
        continue;
      }
      FilesAppend(selected, source);
      selected := selected + [source];
      selectedKeys := selectedKeys + {source};
      seenFiles := seenFiles + {source.file};
      if |selected| >= limit {
        FullFirstPass(candidates, i + 1, limit);
        return selected;
      }
    }
    assert candidates[..|candidates|] == candidates;
    ghost var first := selected;
    for i := 0 to |candidates|
      invariant selected == SecondPass(first, candidates[..i], limit) && |selected| < limit
      invariant forall s :: s in selectedKeys <==> s in selected
    {
      assert candidates[..i + 1][..i] == candidates[..i];
      var source := candidates[i];
      if source in selectedKeys {
        continue;
      }
      selected := selected + [source];
      selectedKeys := selectedKeys + {source};
      if |selected| >= limit {
        FullSecondPass(first, candidates, i + 1, limit);
        return selected;
      }
    }
    assert candidates[..|candidates|] == candidates;
  }

  /** Once full, neither pass changes anything. */
  lemma {:induction false} FullFirstPass(candidates: seq<Span>, k: nat, limit: int)
    requires 0 < limit && k <= |candidates| && |FirstPass(candidates[..k], limit)| >= limit
    ensures Diverse(candidates, limit) == FirstPass(candidates[..k], limit)
  {
    FirstPassStays(candidates, k, limit);
    SecondPassStays(FirstPass(candidates, limit), candidates, limit);
  }

  lemma {:induction false} FirstPassStays(candidates: seq<Span>, k: nat, limit: int)
    requires k <= |candidates| && |FirstPass(candidates[..k], limit)| >= limit
    ensures FirstPass(candidates, limit) == FirstPass(candidates[..k], limit)
  {
    if k == |candidates| {
      assert candidates[..k] == candidates;
    } else {
      var n := |candidates| - 1;
      assert candidates[..n][..k] == candidates[..k];
      FirstPassStays(candidates[..n], k, limit);
    }
  }

  lemma {:induction false} SecondPassStays(picked: seq<Span>, candidates: seq<Span>, limit: int)
    requires |picked| >= limit
    ensures SecondPass(picked, candidates, limit) == picked
  {
    if candidates != [] {
      SecondPassStays(picked, candidates[..|candidates| - 1], limit);
    }
  }

  lemma {:induction false} FullSecondPass(picked: seq<Span>, candidates: seq<Span>, k: nat, limit: int)
    requires k <= |candidates| && |SecondPass(picked, candidates[..k], limit)| >= limit
    ensures SecondPass(picked, candidates, limit) == SecondPass(picked, candidates[..k], limit)
  {
    if k == |candidates| {
      assert candidates[..k] == candidates;
    } else {
      var n := |candidates| - 1;
      assert candidates[..n][..k] == candidates[..k];
      FullSecondPass(picked, candidates[..n], k, limit);
    }
  }
}
