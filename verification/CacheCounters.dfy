/**
 What the counters of the response cache count (core/drivers/response_cache.py), read off the runs: the
 lookups that returned content and those that did not, the entries found past their time, the entries
 evicted while alive, and each entry's own hits.
 */
module CacheCounters {
  import opened Common
  import opened CacheSpec
  import opened CacheRuns

  ghost function Past(now: real): Entry -> bool { (e: Entry) => now > e.expiresAt }

  ghost function Alive(now: real): Entry -> bool { (e: Entry) => now <= e.expiresAt }

  lemma {:induction false} SweepCounts(es: seq<Entry>, now: real)
    ensures |Sweep(es, now)| == |Positions(es, Alive(now))| && |es| - |Sweep(es, now)| == |Positions(es, Past(now))|
  {
    if es == [] {
      assert Positions(es, Alive(now)) == {} && Positions(es, Past(now)) == {};
    } else {
      SweepCounts(es[1..], now);
      assert es == [es[0]] + es[1..];
      PositionsFront(es[0], es[1..], Alive(now));
      PositionsFront(es[0], es[1..], Past(now));
    }
  }

  // ---------------------------------------------------------------------------------------------
  // The statistics
  // ---------------------------------------------------------------------------------------------

  /** A lookup that returns content. */
  ghost predicate Hits(c: Cache, op: Op) { op.Get? && Lookup(c, op.key, op.now) != None }

  /** An enabled lookup that returns nothing. */
  ghost predicate Misses(c: Cache, op: Op) { op.Get? && c.enabled && Lookup(c, op.key, op.now) == None }

  /** How many entries an operation finds past their time: the one looked up, or any at a put. */
  ghost function FoundPast(c: Cache, op: Op): nat {
    if !c.enabled then 0
    else
      match op
      case Get(key, now) =>
        if exists i :: 0 <= i < |c.entries| && c.entries[i].key == key && now > c.entries[i].expiresAt then 1 else 0
      case Put(_, _, _, _, sweptAt) => |Positions(c.entries, Past(sweptAt))|
      case _ => 0
  }

  /** How many entries a put evicts while they are alive: one, when they fill the cache. */
  ghost function EvictedAlive(c: Cache, op: Op): nat {
    if c.enabled && op.Put? && c.maxSize > 0 && |Positions(c.entries, Alive(op.sweptAt))| >= c.maxSize then 1 else 0
  }

  lemma {:induction false} PutCounts(c: Cache, op: Op)
    requires WellFormed(c) && op.Put? && c.enabled
    ensures var s, t := c.stats, Step(c, op).stats;
      t == s.(expirations := s.expirations + FoundPast(c, op), evictions := s.evictions + EvictedAlive(c, op))
  {
    SweepCounts(c.entries, op.sweptAt);
    RoomIsBounded(c, op.sweptAt);
  }

  lemma {:induction false} GetCounts(c: Cache, op: Op)
    requires WellFormed(c) && op.Get?
    ensures var s, t := c.stats, Step(c, op).stats;
      && t.hits == s.hits + (if Hits(c, op) then 1 else 0)
      && t.misses == s.misses + (if Misses(c, op) then 1 else 0)
      && t.expirations == s.expirations + FoundPast(c, op)
      && t.evictions == s.evictions
  {
    AbsentMeans(c.entries, op.key);
    var i := IndexOf(c.entries, op.key);
    if i < |c.entries| {
      forall j | 0 <= j < |c.entries| && c.entries[j].key == op.key ensures j == i {
      }
    }
  }

  /** One operation moves each counter by what it counts. */
  lemma {:induction false} StepCounts(c: Cache, op: Op)
    requires WellFormed(c)
    ensures var s, t := c.stats, Step(c, op).stats;
      && t.hits == s.hits + (if Hits(c, op) then 1 else 0)
      && t.misses == s.misses + (if Misses(c, op) then 1 else 0)
      && t.expirations == s.expirations + FoundPast(c, op)
      && t.evictions == s.evictions + EvictedAlive(c, op)
  {
    if op.Get? {
      GetCounts(c, op);
    } else if op.Put? && c.enabled {
      PutCounts(c, op);
    }
  }

  /** The totals of a run. */
  datatype Tally = Tally(hits: nat, misses: nat, expirations: nat, evictions: nat)

  ghost function TallyOf(c0: Cache, ops: seq<Op>): Tally {
    if ops == [] then Tally(0, 0, 0, 0)
    else
      var c, op, t := Run(c0, ops[..|ops| - 1]), ops[|ops| - 1], TallyOf(c0, ops[..|ops| - 1]);
      Tally(t.hits + (if Hits(c, op) then 1 else 0), t.misses + (if Misses(c, op) then 1 else 0),
            t.expirations + FoundPast(c, op), t.evictions + EvictedAlive(c, op))
  }

  /**
   After any run from an empty cache, the hits are the lookups that returned content, the misses the
   enabled ones that did not, the expirations the entries found past their time, and the evictions the
   puts that met a cache full of live entries.
   */
  lemma {:induction false} CountersAreTallied(maxSize: int, ttl: real, enabled: bool, ops: seq<Op>)
    ensures var s, t := Run(Empty(maxSize, ttl, enabled), ops).stats, TallyOf(Empty(maxSize, ttl, enabled), ops);
      s.hits == t.hits && s.misses == t.misses && s.expirations == t.expirations && s.evictions == t.evictions
  {
    if ops != [] {
      var c0 := Empty(maxSize, ttl, enabled);
      CountersAreTallied(maxSize, ttl, enabled, ops[..|ops| - 1]);
      RunIsWellFormed(c0, ops[..|ops| - 1]);
      StepCounts(Run(c0, ops[..|ops| - 1]), ops[|ops| - 1]);
    }
  }

  // ---------------------------------------------------------------------------------------------
  // An entry's own hits
  // ---------------------------------------------------------------------------------------------

  /** The lookups of a key that returned content since its latest enabled put. */
  ghost function HitsSincePut(c0: Cache, ops: seq<Op>, key: Key): nat {
    if ops == [] then 0
    else
      var c, op, earlier := Run(c0, ops[..|ops| - 1]), ops[|ops| - 1], HitsSincePut(c0, ops[..|ops| - 1], key);
      if op.Put? && op.key == key && c.enabled then 0
      else if Hits(c, op) && op.key == key then earlier + 1
      else earlier
  }

  ghost predicate CountsHits(es: seq<Entry>, key: Key, n: nat) {
    forall i :: 0 <= i < |es| && es[i].key == key ==> es[i].hitCount == n
  }

  lemma {:induction false} RoomKeepsHitCounts(c: Cache, sweptAt: real, key: Key, n: nat)
    requires WellFormed(c) && CountsHits(c.entries, key, n)
    ensures CountsHits(Room(c, sweptAt), key, n)
  {
    var live, room := Sweep(c.entries, sweptAt), Room(c, sweptAt);
    SweepKeepsLive(c.entries, sweptAt);
    forall i | 0 <= i < |room| ensures room[i] in c.entries {
      assert room[i] in live;
    }
  }

  lemma {:induction false} AssignKeepsHitCounts(es: seq<Entry>, e: Entry, key: Key, n: nat)
    requires DistinctKeys(es) && CountsHits(es, key, n) && e.hitCount == 0
    ensures CountsHits(Assign(es, e), key, if e.key == key then 0 else n)
  {
  }

  lemma {:induction false} PutKeepsHitCounts(c: Cache, op: Op, key: Key, n: nat)
    requires WellFormed(c) && op.Put? && c.enabled && CountsHits(c.entries, key, n)
    ensures CountsHits(AfterPut(c, op).entries, key, if op.key == key then 0 else n)
  {
    RoomKeepsHitCounts(c, op.sweptAt, key, n);
    RoomIsBounded(c, op.sweptAt);
    AssignKeepsHitCounts(Room(c, op.sweptAt), NewEntry(c, op), key, n);
  }

  lemma {:induction false} GetKeepsHitCounts(c: Cache, op: Op, key: Key, n: nat)
    requires WellFormed(c) && op.Get? && CountsHits(c.entries, key, n)
    ensures CountsHits(AfterGet(c, op.key, op.now).entries, key, if Hits(c, op) && op.key == key then n + 1 else n)
  {
    var i, after := IndexOf(c.entries, op.key), AfterGet(c, op.key, op.now).entries;
    if after != c.entries {
      var rest := c.entries[..i] + c.entries[i + 1..];
      assert CountsHits(rest, key, n);
      assert op.key == key ==> forall k :: 0 <= k < |rest| ==> rest[k].key != key;
    }
  }

  lemma {:induction false} DeleteKeepsHitCounts(es: seq<Entry>, gone: Key, key: Key, n: nat)
    requires CountsHits(es, key, n)
    ensures CountsHits(Delete(es, gone), key, n)
  {
  }

  /** Each entry's hit count is the number of lookups that returned it since it was put. */
  lemma {:induction false} EntriesCountTheirHits(maxSize: int, ttl: real, enabled: bool, ops: seq<Op>, key: Key)
    ensures var c0 := Empty(maxSize, ttl, enabled);
      CountsHits(Run(c0, ops).entries, key, HitsSincePut(c0, ops, key))
  {
    if ops != [] {
      var c0 := Empty(maxSize, ttl, enabled);
      var c, op, n := Run(c0, ops[..|ops| - 1]), ops[|ops| - 1], HitsSincePut(c0, ops[..|ops| - 1], key);
      EntriesCountTheirHits(maxSize, ttl, enabled, ops[..|ops| - 1], key);
      RunIsWellFormed(c0, ops[..|ops| - 1]);
      if op.Put? && c.enabled {
        PutKeepsHitCounts(c, op, key, n);
      } else if op.Get? {
        GetKeepsHitCounts(c, op, key, n);
      } else if op.Invalidate? {
        DeleteKeepsHitCounts(c.entries, op.key, key, n);
      }
    }
  }
}
