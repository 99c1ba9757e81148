/**
 What every run of the response cache keeps, from an empty cache and under arbitrary clock readings:
 a hit returns the latest put, eviction needs pressure from other keys, and nothing is lost from the
 books.
 */
module CacheRuns {
  import opened Common
  import opened CacheSpec

  ghost function Run(c: Cache, ops: seq<Op>): Cache {
    if ops == [] then c else Step(Run(c, ops[..|ops| - 1]), ops[|ops| - 1])
  }

  lemma {:induction false} RunIsWellFormed(c: Cache, ops: seq<Op>)
    requires WellFormed(c)
    ensures WellFormed(Run(c, ops))
    ensures Run(c, ops).maxSize == c.maxSize && Run(c, ops).ttl == c.ttl
  {
    if ops != [] {
      RunIsWellFormed(c, ops[..|ops| - 1]);
      StepIsWellFormed(Run(c, ops[..|ops| - 1]), ops[|ops| - 1]);
    }
  }

  // ---------------------------------------------------------------------------------------------
  // A hit returns the latest put
  // ---------------------------------------------------------------------------------------------

  datatype PutRecord = PutRecord(content: string, tokens: int, putAt: real)

  ghost predicate EnabledAfter(enabled: bool, ops: seq<Op>) {
    if ops == [] then enabled
    else
      match ops[|ops| - 1]
      case SetEnabled(value) => value
      case _ => EnabledAfter(enabled, ops[..|ops| - 1])
  }

  /** The plain log: the latest put of a key made while the cache was enabled, unless the key was removed since. */
  ghost function LatestPut(enabled: bool, ops: seq<Op>, key: Key): Option<PutRecord> {
    if ops == [] then None
    else
      var earlier := ops[..|ops| - 1];
      var before := LatestPut(enabled, earlier, key);
      match ops[|ops| - 1]
      case Put(k, content, tokens, now, _) =>
        if k == key && EnabledAfter(enabled, earlier) then Some(PutRecord(content, tokens, now)) else before
      case Invalidate(k) => if k == key then None else before
      case Clear => None
      case _ => before
  }

  /** The length of the run just after the put that `LatestPut` returns. */
  ghost function LatestAt(enabled: bool, ops: seq<Op>, key: Key): (n: nat)
    ensures n <= |ops|
  {
    if ops == [] then 0
    else
      var earlier, op := ops[..|ops| - 1], ops[|ops| - 1];
      if op.Put? && op.key == key && EnabledAfter(enabled, earlier) then |ops| else LatestAt(enabled, earlier, key)
  }

  /** Nothing from operation `n` on puts the key while enabled, or removes it on request. */
  ghost predicate Untouched(enabled: bool, ops: seq<Op>, key: Key, n: nat) {
    forall i :: n <= i < |ops| ==>
      && ops[i] != Clear && ops[i] != Invalidate(key)
      && !(ops[i].Put? && ops[i].key == key && EnabledAfter(enabled, ops[..i]))
  }

  /** The latest put is the operation at that place, made while enabled, with nothing concerning its key after it. */
  lemma {:induction false} LatestPutIsLatest(enabled: bool, ops: seq<Op>, key: Key)
    requires LatestPut(enabled, ops, key).Some?
    ensures var n, latest := LatestAt(enabled, ops, key), LatestPut(enabled, ops, key).value;
      && n > 0 && ops[n - 1].Put? && ops[n - 1].key == key && EnabledAfter(enabled, ops[..n - 1])
      && latest == PutRecord(ops[n - 1].content, ops[n - 1].tokens, ops[n - 1].now)
      && Untouched(enabled, ops, key, n)
  {
    var earlier, op := ops[..|ops| - 1], ops[|ops| - 1];
    if !(op.Put? && op.key == key && EnabledAfter(enabled, earlier)) {
      LatestPutIsLatest(enabled, earlier, key);
      var n := LatestAt(enabled, earlier, key);
      assert earlier[..n - 1] == ops[..n - 1];
      forall i | n <= i < |earlier|
        ensures ops[i] != Clear && ops[i] != Invalidate(key)
                && !(ops[i].Put? && ops[i].key == key && EnabledAfter(enabled, ops[..i]))
      {
        assert earlier[i] == ops[i] && earlier[..i] == ops[..i];
      }
    }
  }

  ghost predicate Fits(e: Entry, ttl: real, latest: Option<PutRecord>) {
    && latest.Some?
    && e.content == latest.value.content
    && e.tokensSaved == latest.value.tokens
    && e.createdAt == latest.value.putAt
    && e.expiresAt == latest.value.putAt + ttl
  }

  /** Every entry of a key records this put. */
  ghost predicate Records(es: seq<Entry>, ttl: real, key: Key, latest: Option<PutRecord>) {
    forall i :: 0 <= i < |es| && es[i].key == key ==> Fits(es[i], ttl, latest)
  }

  lemma {:induction false} RunRecordsLatestPut(maxSize: int, ttl: real, enabled: bool, ops: seq<Op>, key: Key)
    ensures var c := Run(Empty(maxSize, ttl, enabled), ops);
      && c.ttl == ttl && c.enabled == EnabledAfter(enabled, ops)
      && Records(c.entries, ttl, key, LatestPut(enabled, ops, key))
  {
    if ops != [] {
      var earlier, op := ops[..|ops| - 1], ops[|ops| - 1];
      RunRecordsLatestPut(maxSize, ttl, enabled, earlier, key);
      RunIsWellFormed(Empty(maxSize, ttl, enabled), earlier);
      StepRecords(Run(Empty(maxSize, ttl, enabled), earlier), op, key, LatestPut(enabled, earlier, key));
    }
  }

  lemma {:induction false} RoomRecords(c: Cache, sweptAt: real, key: Key, latest: Option<PutRecord>)
    requires DistinctKeys(c.entries) && Records(c.entries, c.ttl, key, latest)
    ensures Records(Room(c, sweptAt), c.ttl, key, latest)
  {
    var live, room := Sweep(c.entries, sweptAt), Room(c, sweptAt);
    SweepKeepsLive(c.entries, sweptAt);
    forall i | 0 <= i < |room| ensures room[i] in c.entries {
      assert room[i] in live;
    }
  }

  lemma {:induction false} AssignRecords(es: seq<Entry>, e: Entry, ttl: real, key: Key, latest: Option<PutRecord>)
    requires DistinctKeys(es) && Records(es, ttl, key, latest)
    ensures e.key != key ==> Records(Assign(es, e), ttl, key, latest)
    ensures forall r :: e.key == key && Fits(e, ttl, r) ==> Records(Assign(es, e), ttl, key, r)
  {
  }

  lemma {:induction false} PutRecords(c: Cache, op: Op, key: Key, latest: Option<PutRecord>)
    requires WellFormed(c) && Records(c.entries, c.ttl, key, latest) && op.Put? && c.enabled
    ensures Records(AfterPut(c, op).entries, c.ttl, key,
                    if op.key == key then Some(PutRecord(op.content, op.tokens, op.now)) else latest)
  {
    if !Raises(c, op) {
      RoomRecords(c, op.sweptAt, key, latest);
      RoomIsBounded(c, op.sweptAt);
      AssignRecords(Room(c, op.sweptAt), NewEntry(c, op), c.ttl, key, latest);
      assert Fits(NewEntry(c, op), c.ttl, Some(PutRecord(op.content, op.tokens, op.now)));
    }
  }

  /** One operation moves the recorded put of a key as the plain log does. */
  lemma {:induction false} StepRecords(c: Cache, op: Op, key: Key, latest: Option<PutRecord>)
    requires WellFormed(c) && Records(c.entries, c.ttl, key, latest)
    ensures Records(Step(c, op).entries, c.ttl, key,
      match op
      case Put(k, content, tokens, now, _) => if k == key && c.enabled then Some(PutRecord(content, tokens, now))
        else latest
      case Invalidate(k) => if k == key then None else latest
      case Clear => None
      case _ => latest)
  {
    if op.Put? && c.enabled {
      PutRecords(c, op, key, latest);
    } else if op.Invalidate? {
    } else if op.Get? {
      GetRecords(c, op, key, latest);
    }
  }

  lemma {:induction false} GetRecords(c: Cache, op: Op, key: Key, latest: Option<PutRecord>)
    requires Records(c.entries, c.ttl, key, latest) && op.Get?
    ensures Records(AfterGet(c, op.key, op.now).entries, c.ttl, key, latest)
  {
    var i, after := IndexOf(c.entries, op.key), AfterGet(c, op.key, op.now).entries;
    assert i < |c.entries| && after != c.entries ==> after[..|c.entries| - 1] == c.entries[..i] + c.entries[i + 1..];
  }

  /**
   A hit returns the content of the latest put of its key, no removal of the key since, at most one
   time-to-live after that put; and it credits that put's tokens.
   */
  lemma {:induction false} HitReturnsLatestPut(
    maxSize: int, ttl: real, enabled: bool, ops: seq<Op>, key: Key, now: real)
    ensures var c := Run(Empty(maxSize, ttl, enabled), ops);
      var latest := LatestPut(enabled, ops, key);
      Lookup(c, key, now).Some? ==>
        && latest.Some?
        && Lookup(c, key, now).value == latest.value.content
        && now <= latest.value.putAt + ttl
        && AfterGet(c, key, now).stats.totalTokensSaved == c.stats.totalTokensSaved + latest.value.tokens
  {
    RunRecordsLatestPut(maxSize, ttl, enabled, ops, key);
  }

  // ---------------------------------------------------------------------------------------------
  // Eviction needs pressure
  // ---------------------------------------------------------------------------------------------

  /** The key that an operation makes the youngest: a hit, or a fresh insertion. Overwriting refreshes nothing. */
  ghost function Refreshed(c: Cache, op: Op): Option<Key> {
    match op
    case Get(key, now) => if IsHit(c, key, now) then Some(key) else None
    case Put(key, _, _, _, sweptAt) =>
      if c.enabled && !Raises(c, op) && !Has(Room(c, sweptAt), key) then Some(key) else None
    case _ => None
  }

  /** The other keys refreshed since the key itself last was. */
  ghost function OthersSince(c: Cache, ops: seq<Op>, key: Key): set<Key> {
    if ops == [] then {}
    else
      var earlier := ops[..|ops| - 1];
      OthersAfter(Run(c, earlier), ops[|ops| - 1], key, OthersSince(c, earlier, key))
  }

  /** Every entry younger than the key's belongs to one of the given keys. */
  ghost predicate YoungerAmong(es: seq<Entry>, key: Key, others: set<Key>) {
    forall i, j :: 0 <= i < j < |es| && es[i].key == key ==> es[j].key in others
  }

  /** A put evicts a key when the key is the oldest that the sweep leaves on a full cache. */
  ghost predicate Evicts(c: Cache, op: Op, key: Key) {
    && op.Put? && c.enabled
    && var live := Sweep(c.entries, op.sweptAt);
       |live| >= c.maxSize && live != [] && live[0].key == key
  }

  lemma {:induction false} SweepKeepsYounger(es: seq<Entry>, now: real, key: Key, others: set<Key>)
    requires DistinctKeys(es) && YoungerAmong(es, key, others)
    ensures YoungerAmong(Sweep(es, now), key, others)
  {
    if es != [] {
      SweepKeepsYounger(es[1..], now, key, others);
      SweepKeepsLive(es[1..], now);
      var rest := Sweep(es[1..], now);
      forall j | 0 <= j < |rest| && es[0].key == key ensures rest[j].key in others {
        assert rest[j] in es[1..];
        var k :| 0 <= k < |es[1..]| && es[1..][k] == rest[j];
        assert es[k + 1] == rest[j];
      }
    }
  }

  ghost function OthersAfter(c: Cache, op: Op, key: Key, others: set<Key>): set<Key> {
    match Refreshed(c, op)
    case None => others
    case Some(k) => if k == key then {} else others + {k}
  }

  lemma {:induction false} AssignKeepsYounger(es: seq<Entry>, e: Entry, key: Key, others: set<Key>)
    requires DistinctKeys(es) && YoungerAmong(es, key, others)
    ensures YoungerAmong(Assign(es, e), key,
                         if Has(es, e.key) then others else if e.key == key then {} else others + {e.key})
  {
    var after, i := Assign(es, e), IndexOf(es, e.key);
    assert i < |es| ==> forall k :: 0 <= k < |es| ==> after[k].key == es[k].key;
  }

  lemma {:induction false} StepKeepsYounger(c: Cache, op: Op, key: Key, others: set<Key>)
    requires WellFormed(c) && YoungerAmong(c.entries, key, others)
    ensures YoungerAmong(Step(c, op).entries, key, OthersAfter(c, op, key, others))
  {
    if op.Put? && c.enabled {
      RoomKeepsYounger(c, op.sweptAt, key, others);
      RoomIsBounded(c, op.sweptAt);
      AssignKeepsYounger(Room(c, op.sweptAt), NewEntry(c, op), key, others);
    } else if op.Get? {
      GetKeepsYounger(c, op, key, others);
    } else if op.Invalidate? {
      RemoveKeepsYounger(c.entries, IndexOf(c.entries, op.key), key, others);
    }
  }

  lemma {:induction false} RoomKeepsYounger(c: Cache, sweptAt: real, key: Key, others: set<Key>)
    requires WellFormed(c) && YoungerAmong(c.entries, key, others)
    ensures YoungerAmong(Room(c, sweptAt), key, others)
  {
    var live, room := Sweep(c.entries, sweptAt), Room(c, sweptAt);
    var n := |live| - |room|;
    SweepKeepsYounger(c.entries, sweptAt, key, others);
    SuffixKeepsYounger(live, n, key, others);
  }

  lemma {:induction false} SuffixKeepsYounger(es: seq<Entry>, n: nat, key: Key, others: set<Key>)
    requires n <= |es| && YoungerAmong(es, key, others)
    ensures YoungerAmong(es[n..], key, others)
  {
  }

  lemma {:induction false} RemoveKeepsYounger(es: seq<Entry>, i: nat, key: Key, others: set<Key>)
    requires YoungerAmong(es, key, others)
    ensures i < |es| ==> YoungerAmong(es[..i] + es[i + 1..], key, others)
  {
    if i < |es| {
      var rest := es[..i] + es[i + 1..];
      assert forall k :: 0 <= k < |rest| ==> rest[k] == if k < i then es[k] else es[k + 1];
    }
  }

  lemma {:induction false} TouchKeepsYounger(es: seq<Entry>, i: nat, key: Key, others: set<Key>)
    requires DistinctKeys(es) && i < |es| && YoungerAmong(es, key, others)
    ensures YoungerAmong(Touched(es, i), key, if es[i].key == key then {} else others + {es[i].key})
  {
    var rest, after := es[..i] + es[i + 1..], Touched(es, i);
    assert forall k :: 0 <= k < |rest| ==> rest[k] == after[k] && rest[k].key != es[i].key;
    if es[i].key != key {
      RemoveKeepsYounger(es, i, key, others);
    }
  }

  lemma {:induction false} GetKeepsYounger(c: Cache, op: Op, key: Key, others: set<Key>)
    requires WellFormed(c) && YoungerAmong(c.entries, key, others) && op.Get?
    ensures YoungerAmong(AfterGet(c, op.key, op.now).entries, key, OthersAfter(c, op, key, others))
  {
    var i := IndexOf(c.entries, op.key);
    if IsHit(c, op.key, op.now) {
      TouchKeepsYounger(c.entries, i, key, others);
    } else {
      RemoveKeepsYounger(c.entries, i, key, others);
    }
  }

  lemma {:induction false} RunKeepsYounger(c: Cache, ops: seq<Op>, key: Key)
    requires WellFormed(c) && YoungerAmong(c.entries, key, {})
    ensures YoungerAmong(Run(c, ops).entries, key, OthersSince(c, ops, key))
    ensures key !in OthersSince(c, ops, key)
  {
    if ops != [] {
      var earlier := ops[..|ops| - 1];
      RunKeepsYounger(c, earlier, key);
      RunIsWellFormed(c, earlier);
      StepKeepsYounger(Run(c, earlier), ops[|ops| - 1], key, OthersSince(c, earlier, key));
    }
  }

  lemma {:induction false} DistinctKeysInSet(es: seq<Entry>, others: set<Key>)
    requires DistinctKeys(es) && forall i :: 0 <= i < |es| ==> es[i].key in others
    ensures |es| <= |others|
  {
    if es != [] {
      var last := es[|es| - 1];
      DistinctKeysInSet(es[..|es| - 1], others - {last.key});
    }
  }

  /**
   In any run from an empty cache of positive capacity, a key is evicted only from a full cache and
   only after at least `maxSize - 1` distinct other keys have been hit or freshly inserted since the
   key itself last was.
   */
  lemma {:induction false} EvictionNeedsPressure(maxSize: int, ttl: real, enabled: bool, ops: seq<Op>, op: Op, key: Key)
    requires maxSize >= 1
    requires Evicts(Run(Empty(maxSize, ttl, enabled), ops), op, key)
    ensures var c := Run(Empty(maxSize, ttl, enabled), ops);
      && |Sweep(c.entries, op.sweptAt)| == maxSize
      && key !in OthersSince(Empty(maxSize, ttl, enabled), ops, key)
      && |OthersSince(Empty(maxSize, ttl, enabled), ops, key)| >= maxSize - 1
  {
    var c0 := Empty(maxSize, ttl, enabled);
    var c := Run(c0, ops);
    var live := Sweep(c.entries, op.sweptAt);
    RunIsWellFormed(c0, ops);
    RunKeepsYounger(c0, ops, key);
    SweepKeepsLive(c.entries, op.sweptAt);
    SweepKeepsYounger(c.entries, op.sweptAt, key, OthersSince(c0, ops, key));
    DistinctKeysInSet(live[1..], OthersSince(c0, ops, key));
  }

  lemma {:induction false} AssignKeeps(es: seq<Entry>, e: Entry, k: nat)
    requires DistinctKeys(es) && k < |es|
    ensures Has(Assign(es, e), es[k].key)
  {
    assert Assign(es, e)[k].key == es[k].key;
  }

  lemma {:induction false} RoomKeeps(c: Cache, op: Op, e: Entry) returns (k: nat)
    requires WellFormed(c) && op.Put? && c.enabled && e in c.entries
    requires !IsExpired(e, op.sweptAt) && !Evicts(c, op, e.key)
    ensures k < |Room(c, op.sweptAt)| && Room(c, op.sweptAt)[k] == e
  {
    var live := Sweep(c.entries, op.sweptAt);
    var j := LiveIndex(c.entries, op.sweptAt, e);
    var n := EvictionCount(|live|, c.maxSize);
    assert n <= 1 && (n == 1 ==> j > 0);
    k := j - n;
  }

  lemma {:induction false} LiveIndex(es: seq<Entry>, now: real, e: Entry) returns (j: nat)
    requires e in es && !IsExpired(e, now)
    ensures j < |Sweep(es, now)| && Sweep(es, now)[j] == e
  {
    if es[0] == e {
      j := 0;
    } else {
      j := LiveIndex(es[1..], now, e);
      if !IsExpired(es[0], now) {
        j := j + 1;
      }
    }
  }

  lemma {:induction false} PutKeeps(c: Cache, op: Op, i: nat)
    requires WellFormed(c) && op.Put? && i < |c.entries|
    requires !IsExpired(c.entries[i], op.sweptAt) && !Evicts(c, op, c.entries[i].key)
    ensures Has(AfterPut(c, op).entries, c.entries[i].key)
  {
    if c.enabled {
      var k := RoomKeeps(c, op, c.entries[i]);
      RoomIsBounded(c, op.sweptAt);
      AssignKeeps(Room(c, op.sweptAt), NewEntry(c, op), k);
    } else {
    }
  }

  lemma {:induction false} GetKeeps(c: Cache, op: Op, i: nat)
    requires WellFormed(c) && op.Get? && i < |c.entries|
    requires op.key != c.entries[i].key || !IsExpired(c.entries[i], op.now)
    ensures Has(AfterGet(c, op.key, op.now).entries, c.entries[i].key)
  {
    var j, after := IndexOf(c.entries, op.key), AfterGet(c, op.key, op.now).entries;
    if after == c.entries || i < j {
      assert after[i].key == c.entries[i].key;
    } else if i == j {
      assert after[|after| - 1].key == c.entries[i].key;
    } else {
      assert after[i - 1].key == c.entries[i].key;
    }
  }

  lemma {:induction false} DeleteKeeps(es: seq<Entry>, key: Key, i: nat)
    requires DistinctKeys(es) && i < |es| && es[i].key != key
    ensures Has(Delete(es, key), es[i].key)
  {
    assert Delete(es, key)[if i < IndexOf(es, key) then i else i - 1] == es[i];
  }

  /**
   An enabled operation throws the key's entry out: an expired lookup of it, or another key's put
   that evicts it or finds it expired.
   */
  ghost predicate Throws(c: Cache, op: Op, key: Key) {
    && c.enabled && Has(c.entries, key)
    && var e := c.entries[IndexOf(c.entries, key)];
       match op
       case Get(k, now) => k == key && IsExpired(e, now)
       case Put(k, _, _, _, sweptAt) => k != key && (Evicts(c, op, key) || IsExpired(e, sweptAt))
       case _ => false
  }

  lemma {:induction false} AbsentMeans(es: seq<Entry>, key: Key)
    ensures !Has(es, key) <==> forall i :: 0 <= i < |es| ==> es[i].key != key
  {
  }

  lemma {:induction false} DeleteRemoves(es: seq<Entry>, key: Key)
    requires DistinctKeys(es)
    ensures !Has(Delete(es, key), key)
  {
    AbsentMeans(Delete(es, key), key);
  }

  lemma {:induction false} AssignAddsNoOther(es: seq<Entry>, e: Entry, key: Key)
    requires DistinctKeys(es) && !Has(es, key) && e.key != key
    ensures !Has(Assign(es, e), key)
  {
    AbsentMeans(es, key);
    AbsentMeans(Assign(es, e), key);
  }

  /** A put that evicts an entry or finds it expired leaves no room for it. */
  lemma {:induction false} RoomThrows(c: Cache, op: Op, key: Key)
    requires WellFormed(c) && op.Put? && Throws(c, op, key)
    ensures !Has(Room(c, op.sweptAt), key)
  {
    var live, room := Sweep(c.entries, op.sweptAt), Room(c, op.sweptAt);
    var i := IndexOf(c.entries, key);
    SweepKeepsLive(c.entries, op.sweptAt);
    forall k | 0 <= k < |room| ensures room[k].key != key {
      assert room[k] in live;
      var j :| 0 <= j < |c.entries| && c.entries[j] == room[k];
    }
    AbsentMeans(room, key);
  }

  lemma {:induction false} ThrowingRemoves(c: Cache, op: Op, key: Key)
    requires WellFormed(c) && c.maxSize >= 1 && Throws(c, op, key)
    ensures !Has(Step(c, op).entries, key)
  {
    if op.Get? {
      DeleteRemoves(c.entries, key);
    } else {
      RoomThrows(c, op, key);
      RoomIsBounded(c, op.sweptAt);
      AssignAddsNoOther(Room(c, op.sweptAt), NewEntry(c, op), key);
    }
  }

  /** An entry leaves the cache exactly when it is thrown out, invalidated or cleared. */
  lemma {:induction false} LeavesOnlyForCause(c: Cache, op: Op, i: nat)
    requires WellFormed(c) && i < |c.entries|
    ensures var key := c.entries[i].key;
      !Has(Step(c, op).entries, key) <==> Throws(c, op, key) || op == Invalidate(key) || op == Clear
  {
    var key := c.entries[i].key;
    if Throws(c, op, key) {
      ThrowingRemoves(c, op, key);
    } else {
      match op
      case Get(k, now) => if c.enabled { GetKeeps(c, op, i); }
      case Put(k, _, _, _, _) => if c.enabled && k == key { PutPresent(c, op); }
        else if c.enabled { PutKeeps(c, op, i); }
      case Invalidate(k) => if k != key { DeleteKeeps(c.entries, k, i); } else { DeleteRemoves(c.entries, key); }
      case Clear =>
      case SetEnabled(_) =>
    }
  }

  /** Operation `i` of a run throws the key's entry out; an eviction does so only under pressure from other keys. */
  ghost predicate LosesAt(c: Cache, ops: seq<Op>, key: Key, i: nat)
    requires i < |ops|
  {
    var before, op := Run(c, ops[..i]), ops[i];
    && Throws(before, op, key)
    && (Evicts(before, op, key) ==> |OthersSince(c, ops[..i], key)| >= c.maxSize - 1)
  }

  /** The key's entry is thrown out at operation `n` or later. */
  ghost predicate LostFrom(c: Cache, ops: seq<Op>, key: Key, n: nat) {
    exists i :: n <= i < |ops| && LosesAt(c, ops, key, i)
  }

  lemma {:induction false} LostFromSplits(c: Cache, ops: seq<Op>, key: Key, n: nat)
    requires ops != [] && n < |ops|
    ensures LostFrom(c, ops, key, n) <==> LostFrom(c, ops[..|ops| - 1], key, n) || LosesAt(c, ops, key, |ops| - 1)
  {
    var earlier := ops[..|ops| - 1];
    forall i | n <= i < |earlier| ensures LosesAt(c, ops, key, i) == LosesAt(c, earlier, key, i) {
      assert earlier[..i] == ops[..i];
    }
  }

  /** A missing key stays missing until an enabled put of it. */
  lemma {:induction false} AbsentStays(c: Cache, op: Op, key: Key)
    requires WellFormed(c) && !Has(c.entries, key) && !(op.Put? && op.key == key && c.enabled)
    ensures !Has(Step(c, op).entries, key)
  {
    AbsentMeans(c.entries, key);
    AbsentMeans(Step(c, op).entries, key);
    StepRecords(c, op, key, None);
  }

  /**
   The other half of the refinement: a put that the plain log still holds is present if and only if no
   operation since that put threw it out, by eviction under pressure or past its time-to-live.
   */
  lemma {:induction false} AbsenceHasCause(maxSize: int, ttl: real, enabled: bool, ops: seq<Op>, key: Key)
    requires maxSize >= 1
    requires LatestPut(enabled, ops, key).Some?
    ensures var c0 := Empty(maxSize, ttl, enabled);
      Has(Run(c0, ops).entries, key) <==> !LostFrom(c0, ops, key, LatestAt(enabled, ops, key))
  {
    var c0 := Empty(maxSize, ttl, enabled);
    var earlier, op := ops[..|ops| - 1], ops[|ops| - 1];
    var before := Run(c0, earlier);
    RunIsWellFormed(c0, earlier);
    RunRecordsLatestPut(maxSize, ttl, enabled, earlier, key);
    if op.Put? && op.key == key && before.enabled {
      PutPresent(before, op);
    } else {
      AbsenceHasCause(maxSize, ttl, enabled, earlier, key);
      LostFromSplits(c0, ops, key, LatestAt(enabled, earlier, key));
      if Has(before.entries, key) {
        LeavesOnlyForCause(before, op, IndexOf(before.entries, key));
        if Evicts(before, op, key) {
          EvictionNeedsPressure(maxSize, ttl, enabled, earlier, op, key);
        }
      } else {
        AbsentStays(before, op, key);
      }
    }
  }

  /**
   The whole refinement: a lookup hits if and only if the cache is enabled, the plain log holds a put of
   the key, no operation since that put threw it out, and the put is at most one time-to-live old.
   */
  lemma {:induction false} HitIff(maxSize: int, ttl: real, enabled: bool, ops: seq<Op>, key: Key, now: real)
    requires maxSize >= 1
    ensures var c0, latest := Empty(maxSize, ttl, enabled), LatestPut(enabled, ops, key);
      Lookup(Run(c0, ops), key, now).Some? <==>
        && EnabledAfter(enabled, ops)
        && latest.Some?
        && !LostFrom(c0, ops, key, LatestAt(enabled, ops, key))
        && now <= latest.value.putAt + ttl
  {
    var c := Run(Empty(maxSize, ttl, enabled), ops);
    RunRecordsLatestPut(maxSize, ttl, enabled, ops, key);
    if LatestPut(enabled, ops, key).Some? {
      AbsenceHasCause(maxSize, ttl, enabled, ops, key);
    } else {
      AbsentMeans(c.entries, key);
    }
  }

  lemma {:induction false} PutPresent(c: Cache, op: Op)
    requires WellFormed(c) && op.Put? && c.enabled && c.maxSize >= 1
    ensures Has(AfterPut(c, op).entries, op.key)
  {
    var room := Room(c, op.sweptAt);
    assert Assign(room, NewEntry(c, op))[IndexOf(room, op.key)].key == op.key;
  }

  /** Overwriting a key on a full cache still evicts the oldest entry, and so leaves a place unused. */
  lemma {:induction false} OverwriteEvictsBystander(c: Cache, op: Op)
    requires WellFormed(c) && c.enabled && op.Put? && c.maxSize >= 1
    requires |Sweep(c.entries, op.sweptAt)| == c.maxSize
    requires 0 < IndexOf(Sweep(c.entries, op.sweptAt), op.key) < c.maxSize
    ensures var bystander := Sweep(c.entries, op.sweptAt)[0].key;
      && bystander != op.key && !Has(AfterPut(c, op).entries, bystander)
      && |AfterPut(c, op).entries| == c.maxSize - 1
  {
    var live := Sweep(c.entries, op.sweptAt);
    SweepKeepsLive(c.entries, op.sweptAt);
    OverwriteKeepsKeys(live[1..], NewEntry(c, op), IndexOf(live, op.key) - 1, live[0].key);
  }

  lemma {:induction false} OverwriteKeepsKeys(es: seq<Entry>, e: Entry, i: nat, absent: Key)
    requires DistinctKeys(es) && i < |es| && es[i].key == e.key
    requires forall k :: 0 <= k < |es| ==> es[k].key != absent
    ensures !Has(Assign(es, e), absent) && |Assign(es, e)| == |es|
  {
  }

  // ---------------------------------------------------------------------------------------------
  // Conservation
  // ---------------------------------------------------------------------------------------------

  /** What a run has put in, taken out on request, looked up, and saved by the plain log's account. */
  datatype Ledger = Ledger(inserted: nat, invalidated: nat, cleared: nat, lookups: nat, saved: int)

  /** One operation's entries in the ledger, given the plain log's latest put of the key it looks up. */
  ghost function Booked(c: Cache, l: Ledger, op: Op, latest: Option<PutRecord>): Ledger {
    match op
    case Get(key, now) =>
      if !c.enabled then l
      else
        l.(lookups := l.lookups + 1,
           saved := l.saved + if Lookup(c, key, now).Some? && latest.Some? then latest.value.tokens else 0)
    case Put(_, _, _, _, _) => if Refreshed(c, op).Some? then l.(inserted := l.inserted + 1) else l
    case Invalidate(key) => if Has(c.entries, key) then l.(invalidated := l.invalidated + 1) else l
    case Clear => l.(cleared := l.cleared + |c.entries|)
    case SetEnabled(_) => l
  }

  ghost function Account(maxSize: int, ttl: real, enabled: bool, ops: seq<Op>): Ledger {
    if ops == [] then Ledger(0, 0, 0, 0, 0)
    else
      var earlier, op := ops[..|ops| - 1], ops[|ops| - 1];
      var latest := if op.Get? then LatestPut(enabled, earlier, op.key) else None;
      Booked(Run(Empty(maxSize, ttl, enabled), earlier), Account(maxSize, ttl, enabled, earlier), op, latest)
  }

  ghost predicate Balanced(c: Cache, l: Ledger) {
    && l.inserted == |c.entries| + c.stats.evictions + c.stats.expirations + l.invalidated + l.cleared
    && l.lookups == c.stats.hits + c.stats.misses
    && l.saved == c.stats.totalTokensSaved
  }

  lemma {:induction false} PutConserves(c: Cache, op: Op)
    requires WellFormed(c) && op.Put? && c.enabled
    ensures var after := AfterPut(c, op);
      |after.entries| + after.stats.evictions + after.stats.expirations
      == |c.entries| + c.stats.evictions + c.stats.expirations + if Refreshed(c, op).Some? then 1 else 0
    ensures AfterPut(c, op).stats.hits == c.stats.hits && AfterPut(c, op).stats.misses == c.stats.misses
    ensures AfterPut(c, op).stats.totalTokensSaved == c.stats.totalTokensSaved
  {
    RoomIsBounded(c, op.sweptAt);
    AssignKeepsDistinct(Room(c, op.sweptAt), NewEntry(c, op));
  }

  lemma {:induction false} GetBalances(c: Cache, l: Ledger, op: Op, latest: Option<PutRecord>)
    requires Balanced(c, l) && op.Get?
    requires Lookup(c, op.key, op.now).Some? ==>
      && latest.Some?
      && AfterGet(c, op.key, op.now).stats.totalTokensSaved == c.stats.totalTokensSaved + latest.value.tokens
    ensures Balanced(Step(c, op), Booked(c, l, op, latest))
  {
  }

  lemma {:induction false} StepBalances(c: Cache, l: Ledger, op: Op)
    requires WellFormed(c) && Balanced(c, l) && !op.Get?
    ensures Balanced(Step(c, op), Booked(c, l, op, None))
  {
    if op.Put? && c.enabled {
      PutConserves(c, op);
    }
  }

  /**
   In any run from an empty cache: fresh insertions equal the current size plus everything evicted,
   expired, invalidated and cleared; enabled lookups equal hits plus misses; and the tokens saved are
   the sum, over all hits, of the tokens of the latest put of the key that was hit.
   */
  lemma {:induction false} BooksBalance(maxSize: int, ttl: real, enabled: bool, ops: seq<Op>)
    ensures var c := Run(Empty(maxSize, ttl, enabled), ops);
      Balanced(c, Account(maxSize, ttl, enabled, ops)) && |c.entries| <= Max(0, maxSize)
  {
    var c0 := Empty(maxSize, ttl, enabled);
    RunIsWellFormed(c0, ops);
    if ops != [] {
      var earlier, op := ops[..|ops| - 1], ops[|ops| - 1];
      var c, l := Run(c0, earlier), Account(maxSize, ttl, enabled, earlier);
      BooksBalance(maxSize, ttl, enabled, earlier);
      if op.Get? {
        HitReturnsLatestPut(maxSize, ttl, enabled, earlier, op.key, op.now);
        GetBalances(c, l, op, LatestPut(enabled, earlier, op.key));
      } else {
        RunIsWellFormed(c0, earlier);
        StepBalances(c, l, op);
      }
    }
  }
}
