/**
 The response cache (core/drivers/response_cache.py) as a value: an ordered list of entries, oldest
 use first, and its counters. Keys are opaque; every clock reading is a parameter of the operation
 that takes it.
 */
module CacheSpec {
  import opened Common

  datatype Key = Key(digest: string)

  datatype Entry = Entry(key: Key, content: string, createdAt: real, expiresAt: real, tokensSaved: int, hitCount: nat)

  datatype Stats = Stats(hits: nat, misses: nat, evictions: nat, expirations: nat, totalTokensSaved: int)

  datatype Cache = Cache(maxSize: int, ttl: real, enabled: bool, entries: seq<Entry>, stats: Stats)

  datatype Op =
    | Get(key: Key, now: real)
    | Put(key: Key, content: string, tokens: int, now: real, sweptAt: real)
    | Invalidate(key: Key)
    | Clear
    | SetEnabled(value: bool)

  function Empty(maxSize: int, ttl: real, enabled: bool): Cache {
    Cache(maxSize, ttl, enabled, [], Stats(0, 0, 0, 0, 0))
  }

  // ---------------------------------------------------------------------------------------------
  // The ordered dictionary
  // ---------------------------------------------------------------------------------------------

  ghost predicate DistinctKeys(es: seq<Entry>) {
    forall i, j :: 0 <= i < j < |es| ==> es[i].key != es[j].key
  }

  /** The position of a key, or the length of the dictionary when it is absent. */
  function IndexOf(es: seq<Entry>, key: Key): (i: nat)
    ensures i <= |es|
    ensures i < |es| ==> es[i].key == key
    ensures forall k :: 0 <= k < i ==> es[k].key != key
  {
    FirstAt(es, (e: Entry) => e.key, key)
  }

  predicate Has(es: seq<Entry>, key: Key) { IndexOf(es, key) < |es| }

  function Delete(es: seq<Entry>, key: Key): seq<Entry> {
    var i := IndexOf(es, key);
    if i == |es| then es else es[..i] + es[i + 1..]
  }

  /** Assignment keeps the position of a key that is present and appends one that is not. */
  function Assign(es: seq<Entry>, e: Entry): seq<Entry> {
    var i := IndexOf(es, e.key);
    if i == |es| then es + [e] else es[i := e]
  }

  predicate IsExpired(e: Entry, now: real) { now > e.expiresAt }

  /** The entries that a sweep at one clock reading keeps. */
  function Sweep(es: seq<Entry>, now: real): (r: seq<Entry>)
    ensures |r| <= |es|
  {
    if es == [] then []
    else (if IsExpired(es[0], now) then [] else [es[0]]) + Sweep(es[1..], now)
  }

  // ---------------------------------------------------------------------------------------------
  // Operations
  // ---------------------------------------------------------------------------------------------

  predicate IsHit(c: Cache, key: Key, now: real) {
    c.enabled && Has(c.entries, key) && !IsExpired(c.entries[IndexOf(c.entries, key)], now)
  }

  /** What `get` returns. */
  function Lookup(c: Cache, key: Key, now: real): Option<string> {
    if IsHit(c, key, now) then Some(c.entries[IndexOf(c.entries, key)].content) else None
  }

  /** A hit entry moves to the young end of the order. */
  function Touched(es: seq<Entry>, i: nat): seq<Entry>
    requires i < |es|
  {
    es[..i] + es[i + 1..] + [es[i].(hitCount := es[i].hitCount + 1)]
  }

  function AfterGet(c: Cache, key: Key, now: real): Cache {
    var i, s := IndexOf(c.entries, key), c.stats;
    if !c.enabled then c
    else if i == |c.entries| then c.(stats := s.(misses := s.misses + 1))
    else if IsExpired(c.entries[i], now) then
      c.(entries := c.entries[..i] + c.entries[i + 1..],
        stats := s.(expirations := s.expirations + 1, misses := s.misses + 1))
    else
      c.(entries := Touched(c.entries, i),
         stats := s.(hits := s.hits + 1, totalTokensSaved := s.totalTokensSaved + c.entries[i].tokensSaved))
  }

  /** How many of the oldest entries a put evicts so that one place is free; all of them when there is no place. */
  function EvictionCount(size: nat, maxSize: int): (n: nat)
    ensures n <= size
  {
    if size < maxSize then 0 else Min(size, size - maxSize + 1)
  }

  function NewEntry(c: Cache, op: Op): Entry
    requires op.Put?
  {
    Entry(op.key, op.content, op.now, op.now + c.ttl, op.tokens, 0)
  }

  /** The entries between the eviction and the assignment of a put. */
  function Room(c: Cache, sweptAt: real): seq<Entry> {
    var live := Sweep(c.entries, sweptAt);
    live[EvictionCount(|live|, c.maxSize)..]
  }

  /** An enabled put on a cache without capacity evicts everything and then raises a key error. */
  predicate Raises(c: Cache, op: Op) { op.Put? && c.enabled && c.maxSize < 1 }

  function AfterPut(c: Cache, op: Op): Cache
    requires op.Put?
  {
    if !c.enabled then c
    else
      var live, room, s := Sweep(c.entries, op.sweptAt), Room(c, op.sweptAt), c.stats;
      var counted := s.(expirations := s.expirations + |c.entries| - |live|,
                        evictions := s.evictions + |live| - |room|);
      c.(entries := if Raises(c, op) then [] else Assign(room, NewEntry(c, op)), stats := counted)
  }

  function Step(c: Cache, op: Op): Cache {
    match op
    case Get(key, now) => AfterGet(c, key, now)
    case Put(_, _, _, _, _) => AfterPut(c, op)
    case Invalidate(key) => c.(entries := Delete(c.entries, key))
    case Clear => c.(entries := [])
    case SetEnabled(value) => c.(enabled := value)
  }

  // ---------------------------------------------------------------------------------------------
  // What one operation keeps
  // ---------------------------------------------------------------------------------------------

  ghost predicate WellFormed(c: Cache) {
    DistinctKeys(c.entries) && |c.entries| <= Max(0, c.maxSize)
  }

  /** A sweep keeps exactly the unexpired entries, in order. */
  lemma {:induction false} SweepKeepsLive(es: seq<Entry>, now: real)
    requires DistinctKeys(es)
    ensures DistinctKeys(Sweep(es, now))
    ensures forall e :: e in Sweep(es, now) <==> e in es && !IsExpired(e, now)
  {
    if es != [] {
      SweepKeepsLive(es[1..], now);
      var rest := Sweep(es[1..], now);
      forall j | 0 <= j < |rest| ensures rest[j].key != es[0].key {
        assert rest[j] in es[1..];
      }
    }
  }

  lemma {:induction false} SweepKeepsDistinct(es: seq<Entry>, now: real)
    requires DistinctKeys(es)
    ensures DistinctKeys(Sweep(es, now))
  {
    SweepKeepsLive(es, now);
  }

  lemma {:induction false} AssignKeepsDistinct(es: seq<Entry>, e: Entry)
    requires DistinctKeys(es)
    ensures DistinctKeys(Assign(es, e))
    ensures |Assign(es, e)| == |es| + if Has(es, e.key) then 0 else 1
  {
  }

  lemma {:induction false} RoomIsBounded(c: Cache, sweptAt: real)
    requires WellFormed(c)
    ensures DistinctKeys(Room(c, sweptAt))
    ensures |Room(c, sweptAt)| <= Max(0, c.maxSize - 1)
    ensures |Sweep(c.entries, sweptAt)| - |Room(c, sweptAt)| <= 1
  {
    SweepKeepsDistinct(c.entries, sweptAt);
  }

  /** No operation duplicates a key or lets the cache outgrow its capacity. */
  lemma {:induction false} StepIsWellFormed(c: Cache, op: Op)
    requires WellFormed(c)
    ensures WellFormed(Step(c, op))
    ensures Step(c, op).maxSize == c.maxSize && Step(c, op).ttl == c.ttl
  {
    if op.Put? {
      PutIsWellFormed(c, op);
    } else if op.Get? {
      GetIsWellFormed(c, op);
    }
  }

  lemma {:induction false} PutIsWellFormed(c: Cache, op: Op)
    requires WellFormed(c) && op.Put?
    ensures WellFormed(AfterPut(c, op))
  {
    if c.enabled {
      RoomIsBounded(c, op.sweptAt);
      AssignKeepsDistinct(Room(c, op.sweptAt), NewEntry(c, op));
    }
  }

  lemma {:induction false} GetIsWellFormed(c: Cache, op: Op)
    requires WellFormed(c) && op.Get?
    ensures WellFormed(AfterGet(c, op.key, op.now))
  {
  }
}
