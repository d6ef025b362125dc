/** A linked list of entries with an index from keys to iterators, the pair of containers that the
    C++ LRU and ARC caches keep side by side. The list owns its nodes; an iterator is the slot of
    the node it points at, and stays good however the list is reordered. */
module EntryLists {
  import opened Sequences
  import opened CacheTypes

  type Slot = nat

  datatype Entry = Entry(key: Key, value: Bytes)

  /** The index names exactly the nodes of the list: `order[i]` is the node of `keys[i]`. */
  ghost predicate Indexed(keys: seq<Key>, order: seq<Slot>, index: map<Key, Slot>) {
    && Distinct(keys) && |keys| == |order| && (forall k :: k in index <==> k in keys)
    && (forall i :: 0 <= i < |keys| ==> index[keys[i]] == order[i])
  }

  /** The nodes that the index names hold what `val` says, and no slot has been handed out twice. */
  ghost predicate Stored(index: map<Key, Slot>, node: map<Slot, Entry>, val: map<Key, Bytes>, next: Slot) {
    && index.Keys == val.Keys
    && (forall k :: k in index ==> index[k] in node && node[index[k]] == Entry(k, val[k]))
    && (forall s :: s in node ==> s < next)
  }

  lemma IndexedPush(keys: seq<Key>, order: seq<Slot>, index: map<Key, Slot>, k: Key, s: Slot)
    requires Indexed(keys, order, index) && k !in keys
    ensures Indexed([k] + keys, [s] + order, index[k := s])
  {
  }

  lemma IndexedErase(keys: seq<Key>, order: seq<Slot>, index: map<Key, Slot>, k: Key)
    requires Indexed(keys, order, index) && k in index && Distinct(order)
    ensures Indexed(Without(keys, k), Without(order, index[k]), index - {k})
    ensures Indexed(ToFront(keys, k), ToFront(order, index[k]), index)
  {
    var i := WithoutIndex(keys, k);
    assert order[i] == index[k];
    var j := WithoutIndex(order, index[k]);
    WithoutFacts(keys, k);
    IndexedPush(Without(keys, k), Without(order, index[k]), index - {k}, k, index[k]);
    assert (index - {k})[k := index[k]] == index;
  }

  lemma IndexedPop(keys: seq<Key>, order: seq<Slot>, index: map<Key, Slot>)
    requires Indexed(keys, order, index) && keys != []
    ensures Indexed(Init(keys), Init(order), index - {Last(keys)})
  {
    InitFacts(keys);
  }

  lemma SlotsDistinct(keys: seq<Key>, order: seq<Slot>, index: map<Key, Slot>,
                      node: map<Slot, Entry>, val: map<Key, Bytes>, next: Slot)
    requires Indexed(keys, order, index) && Stored(index, node, val, next)
    ensures Distinct(order)
  {
    forall i, j | 0 <= i < j < |order| ensures order[i] != order[j] {
      assert node[index[keys[i]]].key != node[index[keys[j]]].key;
    }
  }

  lemma StoredErase(index: map<Key, Slot>, node: map<Slot, Entry>, val: map<Key, Bytes>, next: Slot, k: Key)
    requires Stored(index, node, val, next) && k in index
    ensures Stored(index - {k}, node - {index[k]}, val - {k}, next)
  {
    assert forall j :: j in index && j != k ==> node[index[j]].key == j && node[index[k]].key == k;
  }

  class EntryList {
    var order: seq<Slot>
    var node: map<Slot, Entry>
    var index: map<Key, Slot>
    var next: Slot

    // what the containers hold: the keys in list order, and their values
    ghost var keys: seq<Key>
    ghost var val: map<Key, Bytes>

    ghost predicate Valid()
      reads this
    {
      Indexed(keys, order, index) && Stored(index, node, val, next)
    }

    constructor ()
      ensures Valid() && keys == [] && val == map[]
    {
      order, node, index, next := [], map[], map[], 0;
      keys, val := [], map[];
    }

    method Clear()
      requires Valid()
      modifies this
      ensures Valid() && keys == [] && val == map[]
    {
      order, node, index := [], map[], map[];
      keys, val := [], map[];
    }

    function Size(): (n: nat)
      requires Valid()
      reads this
      ensures n == |keys|
    {
      |order|
    }

    predicate Has(k: Key)
      requires Valid()
      reads this
      ensures Has(k) <==> k in keys
    {
      k in index
    }

    function ValueOf(k: Key): (v: Bytes)
      requires Valid() && k in keys
      reads this
      ensures k in val && v == val[k]
    {
      node[index[k]].value
    }

    function Back(): (k: Key)
      requires Valid() && keys != []
      reads this
      ensures k == Last(keys)
    {
      assert Last(keys) in index;
      node[Last(order)].key
    }

    method PushFront(k: Key, v: Bytes)
      requires Valid() && k !in keys
      modifies this
      ensures Valid()
      ensures keys == [k] + old(keys) && val == old(val)[k := v]
    {
      IndexedPush(keys, order, index, k, next);
      order, node, index, next := [next] + order, node[next := Entry(k, v)], index[k := next], next + 1;
      keys, val := [k] + keys, val[k := v];
    }

    /** Erases the entry that the index points at, and its index entry. */
    method Erase(k: Key)
      requires Valid() && k in keys
      modifies this
      ensures Valid()
      ensures keys == Without(old(keys), k) && val == old(val) - {k}
    {
      SlotsDistinct(keys, order, index, node, val, next);
      IndexedErase(keys, order, index, k);
      StoredErase(index, node, val, next, k);
      order, node, index := Without(order, index[k]), node - {index[k]}, index - {k};
      keys, val := Without(keys, k), val - {k};
    }

    method PopBack()
      requires Valid() && keys != []
      modifies this
      ensures Valid()
      ensures keys == Init(old(keys)) && val == old(val) - {Last(old(keys))}
    {
      var k := Back();
      IndexedPop(keys, order, index);
      StoredErase(index, node, val, next, k);
      order, node, index := Init(order), node - {Last(order)}, index - {k};
      keys, val := Init(keys), val - {k};
    }

    /** Splices the entry that the index points at to the front. */
    method MoveToFront(k: Key)
      requires Valid() && k in keys
      modifies this
      ensures Valid()
      ensures keys == ToFront(old(keys), k) && val == old(val)
    {
      SlotsDistinct(keys, order, index, node, val, next);
      IndexedErase(keys, order, index, k);
      order, keys := ToFront(order, index[k]), ToFront(keys, k);
    }

    /** Overwrites the value of the entry that the index points at. */
    method Assign(k: Key, v: Bytes)
      requires Valid() && k in keys
      modifies this
      ensures Valid()
      ensures keys == old(keys) && val == old(val)[k := v]
    {
      node := node[index[k] := Entry(k, v)];
      val := val[k := v];
    }
  }
}
