/** The LFU cache in its two implementations. They differ in the order in which the store is
    scanned for a victim: hash order in C++, insertion order in Python. */
module LfuCache {
  import opened CacheTypes
  import opened OrderedDicts
  import opened LfuSpec

  class LfuCache {
    var store: map<Key, Item>
    var capacity: nat
    var hits: nat
    var misses: nat
    var evictions: nat
    var tick: nat

    ghost function View(): Lfu
      reads this
    {
      Lfu(store, capacity, hits, misses, evictions, tick)
    }

    ghost predicate Valid()
      reads this
    {
      Stamped(View())
    }

    constructor (cap: nat)
      ensures Valid() && View() == Empty(cap)
    {
      store, capacity, hits, misses, evictions, tick := map[], cap, 0, 0, 0, 0;
    }

    /** Stamps an entry with the next tick and counts the use. */
    method Use(key: Key, value: Bytes)
      requires Valid() && key in store
      modifies this`store, this`tick
      ensures Valid() && View() == LfuSpec.Use(old(View()), key, value)
    {
      UseKeepsStamped(View(), key, value);
      tick := tick + 1;
      store := store[key := Item(value, store[key].freq + 1, tick)];
    }

    method Get(key: Key) returns (r: Option<Bytes>)
      requires Valid()
      modifies this
      ensures Valid() && View() == OnGet(old(View()), key)
      ensures r == Lookup(Values(old(View())), key)
    {
      if key in store {
        r := Some(store[key].value);
        Use(key, store[key].value);
        hits := hits + 1;
      } else {
        misses := misses + 1;
        r := None;
      }
    }

    /** Scans the whole store, in any order. */
    method EvictVictim()
      requires Valid()
      modifies this`store, this`evictions
      ensures Valid() && View() == Evict(old(View()))
    {
      EvictFacts(View());
      if store == map[] {
        return;
      }
      var victim := ScanInAnyOrder(store);
      VictimIsEvicted(View(), victim);
      store := store - {victim};
      evictions := evictions + 1;
    }

    method InsertNew(key: Key, value: Bytes)
      requires Valid()
      modifies this`store, this`tick
      ensures Valid() && View() == Insert(old(View()), key, value)
    {
      InsertKeepsStamped(View(), key, value);
      tick := tick + 1;
      store := store[key := Item(value, 1, tick)];
    }

    method Put(key: Key, value: Bytes)
      requires Valid()
      modifies this
      ensures Valid() && View() == OnPut(old(View()), key, value)
    {
      if key in store {
        Use(key, value);
        return;
      }
      EvictFacts(View());
      if |store| >= capacity {
        EvictVictim();
      }
      InsertNew(key, value);
    }

    method Erase(key: Key)
      requires Valid()
      modifies this`store
      ensures Valid() && View() == OnErase(old(View()), key)
    {
      store := store - {key};
    }

    method Resize(c: nat)
      requires Valid()
      modifies this
      ensures Valid() && View() == OnResize(old(View()), c)
    {
      capacity := c;
      ghost var s := View();
      while |store| > capacity
        invariant Valid() && capacity == c
        invariant EvictTimes(View(), Excess(View())) == EvictTimes(s, Excess(s))
        decreases |store|
      {
        EvictTowards(View());
        EvictVictim();
      }
    }

    method Clear()
      modifies this
      ensures Valid() && View() == Empty(old(capacity))
    {
      store, hits, misses, evictions, tick := map[], 0, 0, 0, 0;
    }
  }

  class PyLfuCache {
    var store: OrderedDict<Item>
    var cap: nat
    var hits: nat
    var misses: nat
    var evictions: nat
    var tick: nat

    ghost function View(): Lfu
      reads this
    {
      Lfu(store.items, cap, hits, misses, evictions, tick)
    }

    ghost predicate Valid()
      reads this
    {
      store.Ok() && Stamped(View())
    }

    constructor (capacity: nat)
      ensures Valid() && View() == Empty(capacity)
    {
      store, cap, hits, misses, evictions, tick := OrderedDict([], map[]), capacity, 0, 0, 0, 0;
    }

    method Use(key: Key, value: Bytes)
      requires Valid() && key in store.items
      modifies this`store, this`tick
      ensures Valid() && View() == LfuSpec.Use(old(View()), key, value)
    {
      UseKeepsStamped(View(), key, value);
      tick := tick + 1;
      store := store.Set(key, Item(value, store.items[key].freq + 1, tick));
    }

    method Get(key: Key) returns (r: Option<Bytes>)
      requires Valid()
      modifies this
      ensures Valid() && View() == OnGet(old(View()), key)
      ensures r == Lookup(Values(old(View())), key)
    {
      if key in store.items {
        r := Some(store.items[key].value);
        Use(key, store.items[key].value);
        hits := hits + 1;
      } else {
        misses := misses + 1;
        r := None;
      }
    }

    method RemoveVictim(key: Key)
      requires Valid() && key in store.items
      modifies this`store, this`evictions
      ensures Valid()
      ensures View() == old(View()).(store := old(View()).store - {key}, evictions := old(View()).evictions + 1)
    {
      PopKeepsOk(store, key);
      store := store.Pop(key);
      evictions := evictions + 1;
    }

    /** `min` over the dict returns the first least entry in insertion order. */
    method EvictMin()
      requires Valid()
      modifies this`store, this`evictions
      ensures Valid() && View() == Evict(old(View()))
    {
      EvictFacts(View());
      if |store.keys| != 0 {
        assert store.keys[0] in store.items;
        var victim := ScanInOrder(store.items, store.keys);
        VictimIsEvicted(View(), victim);
        RemoveVictim(victim);
      }
    }

    method MakeRoom()
      requires Valid()
      modifies this`store, this`evictions
      ensures Valid() && View() == if |old(View()).store| >= cap then Evict(old(View())) else old(View())
      ensures forall k :: k in store.items ==> k in old(store.items)
    {
      EvictFacts(View());
      if |store.items| >= cap {
        EvictMin();
      }
    }

    method InsertNew(key: Key, value: Bytes)
      requires Valid() && key !in store.items
      modifies this`store, this`tick
      ensures Valid() && View() == Insert(old(View()), key, value)
    {
      InsertKeepsStamped(View(), key, value);
      tick := tick + 1;
      AppendKeepsOk(store, key, Item(value, 1, tick));
      store := store.Set(key, Item(value, 1, tick));
    }

    method Put(key: Key, value: Bytes)
      requires Valid()
      modifies this
      ensures Valid() && View() == OnPut(old(View()), key, value)
    {
      if key in store.items {
        Use(key, value);
        return;
      }
      MakeRoom();
      InsertNew(key, value);
    }

    method Erase(key: Key)
      requires Valid()
      modifies this`store
      ensures Valid() && View() == OnErase(old(View()), key)
    {
      PopKeepsOk(store, key);
      store := store.Pop(key);
    }

    method Resize(capacity: nat)
      requires Valid()
      modifies this
      ensures Valid() && View() == OnResize(old(View()), capacity)
    {
      cap := capacity;
      ghost var s := View();
      while |store.items| > cap
        invariant Valid() && cap == capacity
        invariant EvictTimes(View(), Excess(View())) == EvictTimes(s, Excess(s))
        decreases |store.items|
      {
        EvictTowards(View());
        EvictMin();
      }
    }

    method Clear()
      modifies this
      ensures Valid() && View() == Empty(old(cap))
    {
      store, hits, misses, evictions, tick := OrderedDict([], map[]), 0, 0, 0, 0;
    }
  }
}
