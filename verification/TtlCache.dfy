/** The in-memory TTL+LRU cache. The store is an ordered dictionary: a sequence of entries with
    distinct keys, least recently used first, that the methods reorder and trim in place. */
module TtlCache {
  import opened Basics
  import opened CacheStore

  class TTLCache<V> {
    var store: seq<Entry<V>>
    const config: Config
    /** Every operation so far, oldest first. */
    ghost var history: seq<Op<V>>

    ghost predicate Valid()
      reads this
    {
      store == Run(history, config)
    }

    constructor (defaultTtl: int, maxSize: nat)
      ensures Valid() && history == [] && store == [] && config == Config(defaultTtl, maxSize)
    {
      store := [];
      config := CacheStore.Config(defaultTtl, maxSize);
      history := [];
    }

    /** The position of `key` in the store, or its size. */
    method IndexOf(key: string) returns (i: nat)
      ensures i <= |store| && forall j :: 0 <= j < i ==> store[j].key != key
      ensures i < |store| ==> store[i].key == key
    {
      i := 0;
      while i < |store| && store[i].key != key
        invariant i <= |store| && forall j :: 0 <= j < i ==> store[j].key != key
      {
        i := i + 1;
      }
    }

    /** Delete `key`, keeping the order of the rest; the entry deleted, if there was one. */
    method Remove(key: string) returns (entry: Option<Entry<V>>)
      requires DistinctKeys(store)
      modifies this`store
      ensures store == Filter(old(store), Except(key)) && entry == Find(old(store), key)
    {
      FindMember(store, key);
      var i := IndexOf(key);
      if i == |store| {
        FilterAll(store, Except(key));
        return None;
      }
      assert store[i] in store;
      RemoveAt(store, i);
      entry := Some(store[i]);
      store := store[..i] + store[i + 1..];
    }

    /** Evict from the front until the store is within the cap. */
    method Evict()
      modifies this`store
      ensures store == Trim(old(store), config.maxSize)
    {
      ghost var cut := 0;
      while |store| > config.maxSize
        invariant cut <= |old(store)| && store == old(store)[cut..]
        invariant cut > 0 ==> |store| >= config.maxSize
        decreases |store|
      {
        store := store[1..];
        cut := cut + 1;
      }
    }

    /** Delete every entry whose key starts with `prefix`. */
    method RemovePrefixed(prefix: string)
      modifies this`store
      ensures store == Filter(old(store), Outside(prefix))
    {
      var all := store;
      var kept := 0;
      ghost var head: seq<Entry<V>> := [];
      for i := 0 to |all|
        invariant head == Filter(all[..i], Outside(prefix)) && kept == |head|
        invariant store == head + all[i..]
      {
        FilterNext(all, i, Outside(prefix));
        SliceAt(head, all, i);
        if prefix <= all[i].key {
          store := store[..kept] + store[kept + 1..];
        } else {
          kept, head := kept + 1, head + [all[i]];
        }
      }
      assert all[..|all|] == all;
    }

    /** Read `key`: a hit becomes the most recently used entry, an expired entry is dropped. */
    method Get(key: string, now: real) returns (value: Option<V>)
      requires Valid()
      modifies this`store, this`history
      ensures Valid() && history == old(history) + [Op.Get(key, now)]
      ensures value == Read(old(store), key, now)
      ensures store == Step(old(store), Op.Get(key, now), config)
      ensures value.Some? ==> store != [] && Last(store).key == key && Last(store).value == value.value
    {
      RunSound(history, config);
      FindMember(store, key);
      RunNext(history, Op.Get(key, now), config);
      history := history + [Op.Get(key, now)];
      var i := IndexOf(key);
      if i == |store| {
        assert forall e :: e in store ==> e.key != key;
        return None;
      }
      var entry := store[i];
      assert entry in store;
      RemoveAt(store, i);
      store := store[..i] + store[i + 1..];
      if now > entry.expiresAt {
        assert store + [] == store;
        return None;
      }
      store := store + [entry];
      return Some(entry.value);
    }

    /** Write `key` as the most recently used entry, then evict from the front past the cap. */
    method Set(key: string, value: V, ttl: Option<int>, now: real)
      requires Valid()
      modifies this`store, this`history
      ensures Valid() && history == old(history) + [Op.Set(key, value, ttl, now)]
      ensures store == Step(old(store), Op.Set(key, value, ttl, now), config)
      ensures |store| <= config.maxSize
    {
      RunSound(history, config);
      ghost var op := Op.Set(key, value, ttl, now);
      var life := if ttl.Some? && ttl.value != 0 then ttl.value else config.defaultTtl;
      var entry := Entry(key, now + life as real, value);
      assert Step(store, op, config) == Trim(Filter(store, Except(key)) + [entry], config.maxSize);
      RunNext(history, op, config);
      history := history + [op];
      Append(entry);
    }

    /** Move or add `entry` to the most recent end, evicting past the cap. */
    method Append(entry: Entry<V>)
      requires DistinctKeys(store)
      modifies this`store
      ensures store == Trim(Filter(old(store), Except(entry.key)) + [entry], config.maxSize)
    {
      var _ := Remove(entry.key);
      store := store + [entry];
      Evict();
    }

    /** Drop every entry, or those whose key starts with `prefix`. */
    method Invalidate(prefix: string)
      requires Valid()
      modifies this`store, this`history
      ensures Valid() && history == old(history) + [Op.Invalidate(prefix)]
      ensures store == Step(old(store), Op.Invalidate(prefix), config)
      ensures forall e :: e in store <==> e in old(store) && !(prefix <= e.key)
    {
      FilterElements(store, Outside(prefix));
      if prefix == "" {
        FilterNothing(store);
        store := [];
      } else {
        RemovePrefixed(prefix);
      }
      RunNext(history, Op.Invalidate(prefix), config);
      history := history + [Op.Invalidate(prefix)];
    }
  }
}
