/**
 The library sort: stable, by any comparison. An element is put before those already placed that it
 may come before, so equal elements keep their order.
 */
module Sorting {
  import opened Common

  function Insert<T>(x: T, sorted: seq<T>, before: (T, T) -> bool): (r: seq<T>)
    ensures |r| == |sorted| + 1
  {
    if sorted == [] || before(x, sorted[0]) then [x] + sorted else [sorted[0]] + Insert(x, sorted[1..], before)
  }

  function Sort<T>(xs: seq<T>, before: (T, T) -> bool): (r: seq<T>)
    ensures |r| == |xs|
  {
    if xs == [] then [] else Insert(xs[0], Sort(xs[1..], before), before)
  }

  lemma {:induction false} InsertAddsOne<T>(x: T, sorted: seq<T>, before: (T, T) -> bool)
    ensures multiset(Insert(x, sorted, before)) == multiset(sorted) + multiset{x}
  {
    if sorted != [] && !before(x, sorted[0]) {
      InsertAddsOne(x, sorted[1..], before);
      assert sorted == [sorted[0]] + sorted[1..];
    }
  }

  /** Sorting rearranges. */
  lemma {:induction false} SortPermutes<T(!new)>(xs: seq<T>, before: (T, T) -> bool)
    ensures multiset(Sort(xs, before)) == multiset(xs)
    ensures forall x :: x in Sort(xs, before) <==> x in xs
  {
    if xs != [] {
      SortPermutes(xs[1..], before);
      InsertAddsOne(xs[0], Sort(xs[1..], before), before);
      assert xs == [xs[0]] + xs[1..];
    }
    forall x ensures x in Sort(xs, before) <==> x in xs {
      assert x in Sort(xs, before) <==> x in multiset(Sort(xs, before));
      assert x in xs <==> x in multiset(xs);
    }
  }

  lemma {:induction false} InsertCounts<T>(x: T, sorted: seq<T>, before: (T, T) -> bool, p: T -> bool)
    ensures |Positions(Insert(x, sorted, before), p)| == (if p(x) then 1 else 0) + |Positions(sorted, p)|
  {
    PositionsFront(x, sorted, p);
    if sorted != [] && !before(x, sorted[0]) {
      assert sorted == [sorted[0]] + sorted[1..];
      InsertCounts(x, sorted[1..], before, p);
      PositionsFront(sorted[0], sorted[1..], p);
      PositionsFront(sorted[0], Insert(x, sorted[1..], before), p);
    }
  }

  /** Sorting keeps the number of elements with a property. */
  lemma {:induction false} SortCounts<T>(xs: seq<T>, before: (T, T) -> bool, p: T -> bool)
    ensures |Positions(Sort(xs, before), p)| == |Positions(xs, p)|
  {
    if xs != [] {
      assert xs == [xs[0]] + xs[1..];
      SortCounts(xs[1..], before, p);
      InsertCounts(xs[0], Sort(xs[1..], before), before, p);
      PositionsFront(xs[0], xs[1..], p);
    }
  }

  /** Every element is related to every later one. */
  ghost predicate Pairwise<T>(xs: seq<T>, below: (T, T) -> bool) {
    forall i, j :: 0 <= i < j < |xs| ==> below(xs[i], xs[j])
  }

  /**
   What the comparison says of an element and those after it is what the relation says, and it
   carries over along the relation.
   */
  ghost predicate Leads<T>(x: T, others: seq<T>, before: (T, T) -> bool, below: (T, T) -> bool) {
    && (forall j :: 0 <= j < |others| ==> if before(x, others[j]) then below(x, others[j]) else below(others[j], x))
    && (forall j, k ::
          0 <= j < |others| && 0 <= k < |others| && before(x, others[j]) && below(others[j], others[k]) ==>
            below(x, others[k]))
  }

  lemma {:induction false} InsertOrders<T>(x: T, sorted: seq<T>, before: (T, T) -> bool, below: (T, T) -> bool)
    requires Pairwise(sorted, below) && Leads(x, sorted, before, below)
    ensures Pairwise(Insert(x, sorted, before), below)
  {
    if sorted == [] {
    } else if before(x, sorted[0]) {
      forall j | 0 <= j < |sorted| ensures below(x, sorted[j]) {
        assert j > 0 ==> below(sorted[0], sorted[j]);
      }
    } else {
      var rest := Insert(x, sorted[1..], before);
      InsertOrders(x, sorted[1..], before, below);
      InsertStaysAbove(x, sorted[1..], before, below, sorted[0]);
    }
  }

  lemma {:induction false} InsertStaysAbove<T>(
    x: T, sorted: seq<T>, before: (T, T) -> bool, below: (T, T) -> bool, low: T)
    requires below(low, x) && forall i :: 0 <= i < |sorted| ==> below(low, sorted[i])
    ensures forall i :: 0 <= i < |Insert(x, sorted, before)| ==> below(low, Insert(x, sorted, before)[i])
  {
    if sorted != [] && !before(x, sorted[0]) {
      InsertStaysAbove(x, sorted[1..], before, below, low);
    }
  }

  /** Each element leads the ones after it. */
  ghost predicate Agrees<T>(xs: seq<T>, before: (T, T) -> bool, below: (T, T) -> bool) {
    forall i :: 0 <= i < |xs| ==> Leads(xs[i], xs[i + 1..], before, below)
  }

  /** Sorting by a comparison orders by every relation that agrees with it, ties in their old order included. */
  lemma {:induction false} SortOrders<T(!new)>(xs: seq<T>, before: (T, T) -> bool, below: (T, T) -> bool)
    requires Agrees(xs, before, below)
    ensures Pairwise(Sort(xs, before), below)
  {
    if xs != [] {
      var tail := xs[1..];
      forall i | 0 <= i < |tail| ensures Leads(tail[i], tail[i + 1..], before, below) {
        assert tail[i] == xs[i + 1] && tail[i + 1..] == xs[i + 2..];
        assert Leads(xs[i + 1], xs[i + 1 + 1..], before, below);
      }
      SortOrders(tail, before, below);
      SortPermutes(tail, before);
      assert Leads(xs[0], xs[0 + 1..], before, below) && xs[0 + 1..] == tail;
      forall k | 0 <= k < |tail| ensures Sort(tail, before)[k] in tail {
        assert Sort(tail, before)[k] in Sort(tail, before);
      }
      LeadsRearranged(xs[0], tail, Sort(tail, before), before, below);
      InsertOrders(xs[0], Sort(tail, before), before, below);
    }
  }

  lemma {:induction false} LeadsRearranged<T>(
    x: T, others: seq<T>, same: seq<T>, before: (T, T) -> bool, below: (T, T) -> bool)
    requires Leads(x, others, before, below) && forall k :: 0 <= k < |same| ==> same[k] in others
    ensures Leads(x, same, before, below)
  {
    forall j | 0 <= j < |same| ensures if before(x, same[j]) then below(x, same[j]) else below(same[j], x) {
      assert same[j] in others;
      var m :| 0 <= m < |others| && others[m] == same[j];
    }
    forall j, k | 0 <= j < |same| && 0 <= k < |same| && before(x, same[j]) && below(same[j], same[k])
      ensures below(x, same[k])
    {
      assert same[j] in others && same[k] in others;
      var m :| 0 <= m < |others| && others[m] == same[j];
      var n :| 0 <= n < |others| && others[n] == same[k];
    }
  }

  lemma {:induction false} InsertKeepsPairs<T>(x: T, sorted: seq<T>, before: (T, T) -> bool, rel: (T, T) -> bool)
    requires Pairwise(sorted, rel) && forall i :: 0 <= i < |sorted| ==> rel(x, sorted[i]) && rel(sorted[i], x)
    ensures Pairwise(Insert(x, sorted, before), rel)
  {
    if sorted != [] && !before(x, sorted[0]) {
      InsertKeepsPairs(x, sorted[1..], before, rel);
      InsertStaysAbove(x, sorted[1..], before, rel, sorted[0]);
    }
  }

  /** A relation that holds both ways between all elements survives any rearrangement by sorting. */
  lemma {:induction false} SortKeepsPairs<T(!new)>(xs: seq<T>, before: (T, T) -> bool, rel: (T, T) -> bool)
    requires forall i, j :: 0 <= i < |xs| && 0 <= j < |xs| && i != j ==> rel(xs[i], xs[j])
    ensures Pairwise(Sort(xs, before), rel)
  {
    if xs != [] {
      var tail, rest := xs[1..], Sort(xs[1..], before);
      forall i, j | 0 <= i < |tail| && 0 <= j < |tail| && i != j ensures rel(tail[i], tail[j]) {
        assert rel(xs[i + 1], xs[j + 1]);
      }
      SortKeepsPairs(tail, before, rel);
      SortPermutes(tail, before);
      forall k | 0 <= k < |rest| ensures rel(xs[0], rest[k]) && rel(rest[k], xs[0]) {
        assert rest[k] in rest;
        var m :| 0 <= m < |tail| && tail[m] == rest[k];
        assert rel(xs[0], xs[m + 1]) && rel(xs[m + 1], xs[0]);
      }
      InsertKeepsPairs(xs[0], rest, before, rel);
    }
  }
}
