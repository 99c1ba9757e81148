/** Small vocabulary shared by every model: options, duplicate-free sequences, integer extrema. */
module Common {

  datatype Option<+T> = None | Some(value: T)

  function Max(a: int, b: int): int { if a >= b then a else b }

  function Min(a: int, b: int): int { if a <= b then a else b }

  function MaxReal(a: real, b: real): real { if a >= b then a else b }

  function MinReal(a: real, b: real): real { if a <= b then a else b }

  ghost predicate NoDup<T>(s: seq<T>) {
    forall i, j :: 0 <= i < j < |s| ==> s[i] != s[j]
  }

  function Elements<T>(s: seq<T>): set<T> { set x | x in s }

  /** A duplicate-free sequence has as many elements as its set. */
  lemma {:induction false} NoDupCardinality<T>(s: seq<T>)
    requires NoDup(s)
    ensures |Elements(s)| == |s|
  {
    if s != [] {
      var rest := s[..|s| - 1];
      NoDupCardinality(rest);
      assert s == rest + [s[|s| - 1]];
      assert Elements(s) == Elements(rest) + {s[|s| - 1]};
      assert s[|s| - 1] !in Elements(rest);
    }
  }

  /** The position of the first element with a key, or the length of the sequence when there is none. */
  function FirstAt<T, K(==)>(xs: seq<T>, keyOf: T -> K, key: K): (i: nat)
    ensures i <= |xs|
    ensures i < |xs| ==> keyOf(xs[i]) == key
    ensures forall k :: 0 <= k < i ==> keyOf(xs[k]) != key
  {
    if xs == [] || keyOf(xs[0]) == key then 0 else 1 + FirstAt(xs[1..], keyOf, key)
  }

  /** The positions at which a sequence has a property. */
  ghost function Positions<T>(xs: seq<T>, p: T -> bool): set<int> { set i | 0 <= i < |xs| && p(xs[i]) }

  lemma {:induction false} PositionsGrow<T>(xs: seq<T>, p: T -> bool)
    requires xs != []
    ensures |Positions(xs, p)| == |Positions(xs[..|xs| - 1], p)| + if p(xs[|xs| - 1]) then 1 else 0
  {
    var n := |xs| - 1;
    assert Positions(xs, p) == Positions(xs[..n], p) + if p(xs[n]) then {n} else {};
  }

  lemma {:induction false} PositionsFront<T>(x: T, xs: seq<T>, p: T -> bool)
    ensures |Positions([x] + xs, p)| == (if p(x) then 1 else 0) + |Positions(xs, p)|
  {
    PositionsGrow([x] + xs, p);
    if xs == [] {
      assert Positions(([x] + xs)[..0], p) == {} && Positions(xs, p) == {};
    } else {
      var n := |xs| - 1;
      assert ([x] + xs)[..n + 1] == [x] + xs[..n];
      PositionsFront(x, xs[..n], p);
      PositionsGrow(xs, p);
    }
  }

  /** The positions are at least as many as a stretch of them. */
  lemma {:induction false} PositionsInclude<T>(xs: seq<T>, n: nat, p: T -> bool)
    requires n <= |xs|
    ensures (forall i :: 0 <= i < n ==> p(xs[i])) ==> |Positions(xs, p)| >= n
    ensures (forall i :: n <= i < |xs| ==> !p(xs[i])) ==> |Positions(xs, p)| <= n
  {
    if xs != [] {
      PositionsGrow(xs, p);
      PositionsInclude(xs[..|xs| - 1], if n == |xs| then n - 1 else n, p);
    }
  }

  /** The last `n` elements of a sequence, or all of it when it is shorter. */
  function LastN<T>(s: seq<T>, n: nat): seq<T> {
    if |s| <= n then s else s[|s| - n..]
  }
}
