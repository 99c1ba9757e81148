/**
 The mutable response cache, operation by operation, proved against CacheSpec. Each method runs under
 the cache's lock, so it is one step of a run.
 */
module ResponseCaching {
  import opened Common
  import opened CacheSpec

  class CacheEntry {
    const key: Key
    const content: string
    const createdAt: real
    const expiresAt: real
    const tokensSaved: int
    var hitCount: nat

    constructor (key: Key, content: string, createdAt: real, expiresAt: real, tokensSaved: int)
      ensures Snapshot() == Entry(key, content, createdAt, expiresAt, tokensSaved, 0)
    {
      this.key, this.content, this.createdAt, this.expiresAt, this.tokensSaved := key, content, createdAt,
        expiresAt, tokensSaved;
      hitCount := 0;
    }

    function Snapshot(): Entry
      reads this
    {
      Entry(key, content, createdAt, expiresAt, tokensSaved, hitCount)
    }
  }

  /** The keys of the expired entries, in order. */
  function ExpiredKeys(es: seq<Entry>, now: real): seq<Key> {
    if es == [] then []
    else (if IsExpired(es[0], now) then [es[0].key] else []) + ExpiredKeys(es[1..], now)
  }

  /** Deleting a list of keys one after the other. */
  function DeleteAll(es: seq<Entry>, keys: seq<Key>): seq<Entry> {
    if keys == [] then es else DeleteAll(Delete(es, keys[0]), keys[1..])
  }

  lemma {:induction false} ExpiredKeysAvoid(es: seq<Entry>, now: real, key: Key)
    requires forall i :: 0 <= i < |es| ==> es[i].key != key
    ensures forall j :: 0 <= j < |ExpiredKeys(es, now)| ==> ExpiredKeys(es, now)[j] != key
  {
    if es != [] {
      ExpiredKeysAvoid(es[1..], now, key);
    }
  }

  lemma {:induction false} DeleteSkips(e: Entry, es: seq<Entry>, key: Key)
    requires key != e.key
    ensures Delete([e] + es, key) == [e] + Delete(es, key)
  {
    var all, i := [e] + es, IndexOf(es, key);
    if i < |es| {
      assert all[..i + 1] == [e] + es[..i] && all[i + 2..] == es[i + 1..];
    }
  }

  lemma {:induction false} DeleteAllSkips(e: Entry, es: seq<Entry>, keys: seq<Key>)
    requires forall j :: 0 <= j < |keys| ==> keys[j] != e.key
    ensures DeleteAll([e] + es, keys) == [e] + DeleteAll(es, keys)
  {
    if keys != [] {
      DeleteSkips(e, es, keys[0]);
      DeleteAllSkips(e, Delete(es, keys[0]), keys[1..]);
    }
  }

  /** Collecting the expired keys and then deleting them one by one leaves exactly the unexpired entries. */
  lemma {:induction false} DeletingExpiredIsSweep(es: seq<Entry>, now: real)
    requires DistinctKeys(es)
    ensures DeleteAll(es, ExpiredKeys(es, now)) == Sweep(es, now)
    ensures |ExpiredKeys(es, now)| == |es| - |Sweep(es, now)|
  {
    if es != [] {
      var keys := ExpiredKeys(es[1..], now);
      DeletingExpiredIsSweep(es[1..], now);
      if IsExpired(es[0], now) {
        assert ExpiredKeys(es, now) == [es[0].key] + keys;
        DeleteAllFirst(es, keys);
      } else {
        assert ExpiredKeys(es, now) == keys;
        ExpiredKeysAvoid(es[1..], now, es[0].key);
        DeleteAllSkips(es[0], es[1..], keys);
        assert es == [es[0]] + es[1..];
      }
    }
  }

  lemma {:induction false} DeleteFirst(es: seq<Entry>)
    requires es != []
    ensures Delete(es, es[0].key) == es[1..]
  {
    assert es[..0] + es[1..] == es[1..];
  }

  lemma {:induction false} DeleteAllFirst(es: seq<Entry>, keys: seq<Key>)
    requires es != []
    ensures DeleteAll(es, [es[0].key] + keys) == DeleteAll(es[1..], keys)
  {
    var all := [es[0].key] + keys;
    DeleteFirst(es);
    assert all[0] == es[0].key && all[1..] == keys;
  }

  lemma {:induction false} SuffixStep(es: seq<Entry>, n: nat)
    requires n < |es|
    ensures es[n..][1..] == es[n + 1..]
  {
  }

  class ResponseCache {
    const maxSize: int
    const ttl: real
    var enabled: bool
    /** The ordered dictionary's values, oldest first. */
    var cache: seq<CacheEntry>
    var hits: nat
    var misses: nat
    var evictions: nat
    var expirations: nat
    var totalTokensSaved: int

    ghost predicate Valid()
      reads this`cache
    {
      forall i, j :: 0 <= i < j < |cache| ==> cache[i].key != cache[j].key
    }

    ghost function Entries(): (r: seq<Entry>)
      reads this`cache, cache
      ensures |r| == |cache|
    {
      var entries := cache;
      seq(|entries|, i requires 0 <= i < |entries| reads entries => entries[i].Snapshot())
    }

    ghost function View(): Cache
      reads this, cache
    {
      Cache(maxSize, ttl, enabled, Entries(), Stats(hits, misses, evictions, expirations, totalTokensSaved))
    }

    constructor (maxSize: int, ttl: real, enabled: bool)
      ensures Valid() && View() == Empty(maxSize, ttl, enabled)
    {
      this.maxSize, this.ttl, this.enabled := maxSize, ttl, enabled;
      cache := [];
      hits, misses, evictions, expirations, totalTokensSaved := 0, 0, 0, 0, 0;
      new;
      assert Entries() == [];
    }

    /** The dictionary lookup. */
    method Find(key: Key) returns (i: nat)
      requires Valid()
      ensures i == IndexOf(Entries(), key)
    {
      i := 0;
      while i < |cache| && cache[i].key != key
        invariant i <= |cache|
        invariant forall k :: 0 <= k < i ==> Entries()[k].key != key
      {
        i := i + 1;
      }
      assert i < |cache| ==> Entries()[i].key == key;
    }

    method Get(key: Key, now: real) returns (content: Option<string>)
      requires Valid()
      modifies this, cache
      ensures Valid()
      ensures View() == AfterGet(old(View()), key, now)
      ensures content == Lookup(old(View()), key, now)
    {
      if !enabled {
        return None;
      }
      var i := Find(key);
      if i == |cache| {
        misses := misses + 1;
        return None;
      }
      var entry := cache[i];
      if now > entry.expiresAt {
        Expire(i);
        return None;
      }
      Hit(i);
      return Some(entry.content);
    }

    /** An expired entry counts as an expiration and a miss. */
    method Expire(i: nat)
      requires Valid() && i < |cache|
      modifies this
      ensures Valid() && enabled == old(enabled)
      ensures Entries() == old(Entries())[..i] + old(Entries())[i + 1..]
      ensures hits == old(hits) && misses == old(misses) + 1 && totalTokensSaved == old(totalTokensSaved)
      ensures evictions == old(evictions) && expirations == old(expirations) + 1
    {
      Drop(i);
      expirations := expirations + 1;
      misses := misses + 1;
    }

    /** A hit credits the tokens its entry recorded. */
    method Hit(i: nat)
      requires Valid() && i < |cache|
      modifies this, cache[i]
      ensures Valid() && enabled == old(enabled)
      ensures Entries() == Touched(old(Entries()), i)
      ensures hits == old(hits) + 1 && totalTokensSaved == old(totalTokensSaved + cache[i].tokensSaved)
      ensures misses == old(misses) && evictions == old(evictions) && expirations == old(expirations)
    {
      var entry := cache[i];
      MoveToEnd(i);
      hits := hits + 1;
      totalTokensSaved := totalTokensSaved + entry.tokensSaved;
    }

    /** A hit entry becomes the youngest. */
    method MoveToEnd(i: nat)
      requires Valid() && i < |cache|
      modifies this`cache, cache[i]
      ensures Valid()
      ensures Entries() == Touched(old(Entries()), i)
    {
      var entry := cache[i];
      cache := cache[..i] + cache[i + 1..] + [entry];
      entry.hitCount := entry.hitCount + 1;
    }

    /** Returns false when the source raises a key error, which happens when the capacity is below one. */
    method Put(key: Key, content: string, tokens: int, now: real, sweptAt: real) returns (stored: bool)
      requires Valid()
      modifies this
      ensures Valid()
      ensures View() == AfterPut(old(View()), CacheSpec.Put(key, content, tokens, now, sweptAt))
      ensures stored == !Raises(old(View()), CacheSpec.Put(key, content, tokens, now, sweptAt))
    {
      if !enabled {
        return true;
      }
      ghost var op := CacheSpec.Put(key, content, tokens, now, sweptAt);
      assert NewEntry(View(), op) == Entry(key, content, now, now + ttl, tokens, 0);
      stored := PutEnabled(key, content, tokens, now, sweptAt);
    }

    method PutEnabled(key: Key, content: string, tokens: int, now: real, sweptAt: real) returns (stored: bool)
      requires Valid()
      modifies this`cache, this`expirations, this`evictions
      ensures Valid()
      ensures stored == (maxSize >= 1)
      ensures var live, room := Sweep(old(Entries()), sweptAt), Room(old(View()), sweptAt);
        && Entries() == (if stored then Assign(room, Entry(key, content, now, now + ttl, tokens, 0)) else [])
        && expirations == old(expirations) + |old(Entries())| - |live|
        && evictions == old(evictions) + |live| - |room|
    {
      stored := MakeRoom(sweptAt);
      if stored {
        Store(key, content, tokens, now);
      }
    }

    /** The two evictions that open a put. */
    method MakeRoom(sweptAt: real) returns (hasRoom: bool)
      requires Valid()
      modifies this`cache, this`expirations, this`evictions
      ensures Valid()
      ensures hasRoom == (maxSize >= 1) && (!hasRoom ==> Entries() == [])
      ensures Entries() == Room(old(View()), sweptAt)
      ensures expirations == old(expirations) + |old(Entries())| - |Sweep(old(Entries()), sweptAt)|
      ensures evictions == old(evictions) + |Sweep(old(Entries()), sweptAt)| - |Entries()|
    {
      EvictExpired(sweptAt);
      hasRoom := EvictOldest();
    }

    /** Assignment of a new entry to the dictionary. */
    method Store(key: Key, content: string, tokens: int, now: real)
      requires Valid()
      modifies this`cache
      ensures Valid()
      ensures Entries() == Assign(old(Entries()), Entry(key, content, now, now + ttl, tokens, 0))
    {
      var i := Find(key);
      var entry := new CacheEntry(key, content, now, now + ttl, tokens);
      if i == |cache| {
        AppendEntry(entry);
      } else {
        ReplaceEntry(i, entry);
      }
    }

    /** A key that is absent goes to the young end. */
    method AppendEntry(entry: CacheEntry)
      requires Valid() && !Has(Entries(), entry.key)
      modifies this`cache
      ensures Valid() && Entries() == old(Entries()) + [entry.Snapshot()]
    {
      forall k | 0 <= k < |cache| ensures cache[k].key != entry.key {
        assert Entries()[k].key == cache[k].key;
      }
      cache := cache + [entry];
    }

    /** A key that is present keeps its place. */
    method ReplaceEntry(i: nat, entry: CacheEntry)
      requires Valid() && i < |cache| && cache[i].key == entry.key
      modifies this`cache
      ensures Valid() && Entries() == old(Entries())[i := entry.Snapshot()]
    {
      cache := cache[i := entry];
    }

    method EvictExpired(now: real)
      requires Valid()
      modifies this`cache, this`expirations
      ensures Valid()
      ensures Entries() == Sweep(old(Entries()), now)
      ensures expirations == old(expirations) + |old(Entries())| - |Entries()|
    {
      var expired := CollectExpired(now);
      DeletingExpiredIsSweep(Entries(), now);
      RemoveExpired(expired);
    }

    method CollectExpired(now: real) returns (expired: seq<Key>)
      ensures expired == ExpiredKeys(Entries(), now)
    {
      expired := [];
      ghost var es := Entries();
      for i := 0 to |cache|
        invariant expired + ExpiredKeys(es[i..], now) == ExpiredKeys(es, now)
      {
        assert es[i..][1..] == es[i + 1..];
        if now > cache[i].expiresAt {
          expired := expired + [cache[i].key];
        }
      }
    }

    method RemoveExpired(expired: seq<Key>)
      requires Valid()
      modifies this`cache, this`expirations
      ensures Valid()
      ensures Entries() == DeleteAll(old(Entries()), expired)
      ensures expirations == old(expirations) + |expired|
    {
      ghost var es := Entries();
      assert expired[0..] == expired;
      for j := 0 to |expired|
        invariant Valid()
        invariant DeleteAll(Entries(), expired[j..]) == DeleteAll(es, expired)
        invariant expirations == old(expirations) + j
      {
        assert expired[j..][1..] == expired[j + 1..];
        var _ := Remove(expired[j]);
        expirations := expirations + 1;
      }
      assert expired[|expired|..] == [];
    }

    /** `del` on the dictionary, when the key is there. */
    method Remove(key: Key) returns (found: bool)
      requires Valid()
      modifies this`cache
      ensures Valid()
      ensures Entries() == Delete(old(Entries()), key)
      ensures found == Has(old(Entries()), key)
    {
      var i := Find(key);
      found := i < |cache|;
      if found {
        Drop(i);
      }
    }

    method Drop(i: nat)
      requires Valid() && i < |cache|
      modifies this`cache
      ensures Valid()
      ensures Entries() == old(Entries())[..i] + old(Entries())[i + 1..]
    {
      cache := cache[..i] + cache[i + 1..];
    }

    /** The eviction loop; false when it runs the dictionary empty and pops once more. */
    method EvictOldest() returns (hasRoom: bool)
      requires Valid()
      modifies this`cache, this`evictions
      ensures Valid()
      ensures hasRoom == (maxSize >= 1)
      ensures Entries() == old(Entries())[EvictionCount(|old(Entries())|, maxSize)..]
      ensures evictions == old(evictions) + |old(Entries())| - |Entries()|
    {
      ghost var es := Entries();
      while |cache| >= maxSize
        invariant Valid()
        invariant |cache| <= |es| && Entries() == es[|es| - |cache|..]
        invariant |es| < maxSize ==> |cache| == |es|
        invariant |es| >= maxSize ==> |cache| >= maxSize - 1
        invariant evictions == old(evictions) + |es| - |cache|
        decreases |cache|
      {
        if |cache| == 0 {
          return false;
        }
        SuffixStep(es, |es| - |cache|);
        DropOldest();
        evictions := evictions + 1;
      }
      return true;
    }

    method DropOldest()
      requires Valid() && cache != []
      modifies this`cache
      ensures Valid() && |cache| == |old(cache)| - 1
      ensures Entries() == old(Entries())[1..]
    {
      cache := cache[1..];
    }

    method Invalidate(key: Key) returns (found: bool)
      requires Valid()
      modifies this
      ensures Valid()
      ensures View() == Step(old(View()), CacheSpec.Invalidate(key))
      ensures found == Has(old(View()).entries, key)
    {
      found := Remove(key);
    }

    method Clear() returns (count: nat)
      modifies this
      ensures Valid() && View() == Step(old(View()), CacheSpec.Clear)
      ensures count == |old(View()).entries|
    {
      count := |cache|;
      cache := [];
    }

    method SetEnabled(value: bool)
      requires Valid()
      modifies this`enabled
      ensures View() == Step(old(View()), CacheSpec.SetEnabled(value))
    {
      enabled := value;
    }
  }
}
