/** The LRU cache in its two implementations: the C++ list with an index of iterators, and the
    Python OrderedDict. */
module LruCache {
  import opened CacheTypes
  import opened EntryLists
  import opened LruSpec

  class LruCache {
    const list: EntryList
    var capacity: nat
    var hits: nat
    var misses: nat
    var evictions: nat

    ghost predicate Valid()
      reads this, list
    {
      list.Valid()
    }

    ghost function View(): Lru
      reads this, list
    {
      Lru(list.keys, list.val, capacity, hits, misses, evictions)
    }

    constructor (cap: nat)
      ensures Valid() && View() == Empty(cap) && fresh(list)
    {
      list := new EntryList();
      capacity, hits, misses, evictions := cap, 0, 0, 0;
    }

    method Get(key: Key) returns (r: Option<Bytes>)
      requires Valid()
      modifies this, list
      ensures Valid() && View() == OnGet(old(View()), key)
      ensures r == Lookup(old(View()).val, key)
    {
      if list.Has(key) {
        r := Some(list.ValueOf(key));
        hits := hits + 1;
        list.MoveToFront(key);
      } else {
        misses := misses + 1;
        r := None;
      }
    }

    method EvictIfOver()
      requires Valid()
      modifies this`evictions, list
      ensures Valid() && View() == Trim(old(View()))
    {
      while list.Size() > capacity && list.Size() != 0
        invariant Valid() && Trim(View()) == Trim(old(View()))
        decreases list.Size()
      {
        TrimOne(View());
        list.PopBack();
        evictions := evictions + 1;
      }
    }

    method Put(key: Key, value: Bytes)
      requires Valid()
      modifies this, list
      ensures Valid() && View() == OnPut(old(View()), key, value)
    {
      if list.Has(key) {
        list.Assign(key, value);
        list.MoveToFront(key);
      } else {
        list.PushFront(key, value);
        EvictIfOver();
      }
    }

    method Erase(key: Key)
      requires Valid()
      modifies this, list
      ensures Valid() && View() == OnErase(old(View()), key)
    {
      if list.Has(key) {
        list.Erase(key);
      }
    }

    method Resize(c: nat)
      requires Valid()
      modifies this, list
      ensures Valid() && View() == Trim(old(View()).(cap := c))
    {
      capacity := c;
      EvictIfOver();
    }

    method Clear()
      requires Valid()
      modifies this, list
      ensures Valid() && View() == Empty(old(capacity))
    {
      list.Clear();
      hits, misses, evictions := 0, 0, 0;
    }
  }
}
