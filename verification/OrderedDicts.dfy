/** Python's OrderedDict as a value: its keys in order, and what they map to. */
module OrderedDicts {
  import opened Sequences
  import opened CacheTypes

  datatype OrderedDict<V> = OrderedDict(keys: seq<Key>, items: map<Key, V>)
  {
    ghost predicate Ok() {
      Distinct(keys) && forall k :: k in items <==> k in keys
    }

    /** `d[k] = v`: a new key goes to the end. */
    function Set(k: Key, v: V): OrderedDict<V> {
      OrderedDict(if k in items then keys else keys + [k], items[k := v])
    }

    /** `d.move_to_end(k, last=False)` */
    function MoveToFront(k: Key): OrderedDict<V> {
      OrderedDict(ToFront(keys, k), items)
    }

    /** `d.popitem(last=True)` */
    function PopLast(): OrderedDict<V>
      requires keys != []
    {
      OrderedDict(Init(keys), items - {Last(keys)})
    }

    /** `d.pop(k, None)` */
    function Pop(k: Key): OrderedDict<V> {
      OrderedDict(Without(keys, k), items - {k})
    }
  }

  const EMPTY: OrderedDict<Bytes> := OrderedDict([], map[])

  /** Setting a key and moving it to the front puts it there, whether it was present or not. */
  lemma SetFront<V>(d: OrderedDict<V>, k: Key, v: V)
    requires d.Ok()
    ensures d.Set(k, v).MoveToFront(k) == OrderedDict(ToFront(d.keys, k), d.items[k := v])
    ensures d.Set(k, v).MoveToFront(k).Ok()
  {
    ToFrontFacts(d.keys, k);
    if k !in d.items {
      assert Distinct(d.keys + [k]);
      WithoutAt(d.keys + [k], |d.keys|);
      assert (d.keys + [k])[..|d.keys|] + (d.keys + [k])[|d.keys| + 1..] == d.keys;
      WithoutAbsent(d.keys, k);
    }
  }

  lemma MoveKeepsOk<V>(d: OrderedDict<V>, k: Key)
    requires d.Ok() && k in d.keys
    ensures d.MoveToFront(k).Ok()
  {
    ToFrontFacts(d.keys, k);
  }

  lemma AppendKeepsOk<V>(d: OrderedDict<V>, k: Key, v: V)
    requires d.Ok()
    ensures d.Set(k, v).Ok()
  {
    if k !in d.items {
      assert forall i :: 0 <= i < |d.keys| ==> d.keys[i] != k;
    }
  }

  lemma PopKeepsOk<V>(d: OrderedDict<V>, k: Key)
    requires d.Ok()
    ensures d.Pop(k).Ok() && k !in d.Pop(k).keys
    ensures forall j :: j in d.Pop(k).keys ==> j in d.keys
    ensures k !in d.keys ==> d.Pop(k) == d
  {
    WithoutFacts(d.keys, k);
    if k !in d.keys {
      WithoutAbsent(d.keys, k);
    }
  }

  lemma PopLastKeepsOk<V>(d: OrderedDict<V>)
    requires d.Ok() && d.keys != []
    ensures d.PopLast().Ok()
    ensures forall j :: j in d.PopLast().keys ==> j in d.keys
  {
    InitFacts(d.keys);
  }

  /** `s[k] = None` in an OrderedDict kept as its key order. */
  function Appended(s: seq<Key>, k: Key): seq<Key> {
    if k in s then s else s + [k]
  }

  lemma AppendedFacts(s: seq<Key>, k: Key)
    requires Distinct(s)
    ensures Distinct(Appended(s, k)) && Elems(Appended(s, k)) == Elems(s) + {k}
  {
    assert forall j :: j in Appended(s, k) <==> j in s || j == k;
  }

  lemma RemovedFacts(s: seq<Key>, k: Key)
    requires Distinct(s)
    ensures Distinct(Without(s, k)) && Elems(Without(s, k)) == Elems(s) - {k}
    ensures s != [] ==> Distinct(Init(s)) && Elems(Init(s)) == Elems(s) - {Last(s)} && Last(s) in Elems(s)
  {
    WithoutFacts(s, k);
    if s != [] {
      InitFacts(s);
    }
  }
}
