/** The Python LRU cache: one OrderedDict, most recent first. */
module PyLruCache {
  import opened Sequences
  import opened CacheTypes
  import opened OrderedDicts
  import opened LruSpec

  class PyLruCache {
    var cap: nat
    var store: OrderedDict<Bytes>
    var hits: nat
    var misses: nat
    var evictions: nat

    ghost predicate Valid()
      reads this
    {
      store.Ok()
    }

    ghost function View(): Lru
      reads this
    {
      Lru(store.keys, store.items, cap, hits, misses, evictions)
    }

    constructor (capacity: nat)
      ensures Valid() && View() == Empty(capacity)
    {
      cap, store, hits, misses, evictions := capacity, EMPTY, 0, 0, 0;
    }

    method Get(key: Key) returns (r: Option<Bytes>)
      requires Valid()
      modifies this
      ensures Valid() && View() == OnGet(old(View()), key)
      ensures r == Lookup(old(View()).val, key)
    {
      if key in store.items {
        hits := hits + 1;
        MoveKeepsOk(store, key);
        store := store.MoveToFront(key);
        r := Some(store.items[key]);
      } else {
        misses := misses + 1;
        r := None;
      }
    }

    method EvictOver()
      requires Valid()
      modifies this`store, this`evictions
      ensures Valid() && View() == Trim(old(View()))
    {
      while |store.keys| > cap
        invariant Valid() && Trim(View()) == Trim(old(View()))
        decreases |store.keys|
      {
        TrimOne(View());
        PopLastKeepsOk(store);
        store := store.PopLast();
        evictions := evictions + 1;
      }
    }

    method Put(key: Key, value: Bytes)
      requires Valid()
      modifies this
      ensures Valid() && View() == OnPut(old(View()), key, value)
    {
      SetFront(store, key, value);
      var present := key in store.items;
      if !present {
        WithoutAbsent(store.keys, key);
      }
      store := store.Set(key, value).MoveToFront(key);
      if !present {
        EvictOver();
      }
    }

    method Erase(key: Key)
      requires Valid()
      modifies this
      ensures Valid() && View() == OnErase(old(View()), key)
    {
      PopKeepsOk(store, key);
      store := store.Pop(key);
    }

    method Resize(capacity: nat)
      requires Valid()
      modifies this
      ensures Valid() && View() == Trim(old(View()).(cap := capacity))
    {
      cap := capacity;
      EvictOver();
    }

    method Clear()
      requires Valid()
      modifies this
      ensures Valid() && View() == Empty(old(cap))
    {
      store, hits, misses, evictions := EMPTY, 0, 0, 0;
    }
  }
}
