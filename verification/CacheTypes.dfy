/** What every cache policy shares: keys, values, the operations of a run, and the plain map they are compared with. */
module CacheTypes {
  import opened Sequences

  type Key = string
  type Bytes = seq<bv8>

  datatype Option<+T> = None | Some(value: T)

  function Max(a: int, b: int): int { if a > b then a else b }
  function Min(a: int, b: int): int { if a < b then a else b }

  /** One call on a cache. `pick` of a `Put` is the ghost key the call forgets when it has to
      forget one: the one that `*begin()` of a hash set, or the end of an OrderedDict, happens to
      name. A `pick` that is no such key stands for any other choice. */
  datatype Op =
    | Get(key: Key)
    | Put(key: Key, value: Bytes, pick: Key)
    | Erase(key: Key)
    | Resize(capacity: nat)
    | Clear
    | Hint(keys: seq<Key>)

  /** What one call does to a plain map, which never evicts. */
  function MapStep(m: map<Key, Bytes>, op: Op): map<Key, Bytes> {
    match op
    case Put(k, v, _) => m[k := v]
    case Erase(k) => m - {k}
    case Clear => map[]
    case _ => m
  }

  /** What a plain map holds after the calls `ops`: for each key the last value put since its last
      erase, or since the last clear. */
  function PlainMap(ops: seq<Op>): map<Key, Bytes> {
    if ops == [] then map[] else MapStep(PlainMap(Init(ops)), Last(ops))
  }

  /** Number of `Get` calls since the last `Clear`. */
  function Lookups(ops: seq<Op>): nat {
    if ops == [] then 0
    else if Last(ops).Clear? then 0
    else Lookups(Init(ops)) + if Last(ops).Get? then 1 else 0
  }

  /** A predictor's guess at the next app; an app's id is also its key in the app cache. */
  datatype Prediction = Prediction(appId: Key, score: real)

  function AppIds(ps: seq<Prediction>): seq<Key> {
    seq(|ps|, i requires 0 <= i < |ps| => ps[i].appId)
  }

  ghost predicate SubMap<K, V>(m: map<K, V>, n: map<K, V>) {
    forall k :: k in m ==> k in n && m[k] == n[k]
  }

  function Lookup(m: map<Key, Bytes>, k: Key): Option<Bytes> {
    if k in m then Some(m[k]) else None
  }

  /** The value last put for `k`, unless `k` was erased or all was cleared since. */
  function LastPut(ops: seq<Op>, k: Key): Option<Bytes> {
    if ops == [] then None
    else
      match Last(ops)
      case Put(j, v, _) => if j == k then Some(v) else LastPut(Init(ops), k)
      case Erase(j) => if j == k then None else LastPut(Init(ops), k)
      case Clear => None
      case _ => LastPut(Init(ops), k)
  }

  /** What the plain map holds for one key. */
  lemma {:induction false} PlainMapHolds(ops: seq<Op>, k: Key)
    ensures Lookup(PlainMap(ops), k) == LastPut(ops, k)
  {
    if ops != [] {
      PlainMapHolds(Init(ops), k);
    }
  }

  lemma DropTail<V>(m: map<Key, V>, l: seq<Key>, n: nat)
    requires n < |l|
    ensures Init(l)[..n] == l[..n]
    ensures (m - {Last(l)}) - Elems(Init(l)[n..]) == m - Elems(l[n..])
  {
    assert l[n..] == Init(l)[n..] + [Last(l)];
    assert forall k :: k in Elems(l[n..]) <==> k in Elems(Init(l)[n..]) || k == Last(l);
  }

  // Two maps with disjoint keys, seen as one.

  lemma UnionMove<K, V>(a: map<K, V>, b: map<K, V>, k: K)
    requires k in a && k !in b
    ensures (a - {k}) + b[k := a[k]] == a + b
  {
  }

  lemma UnionWithout<K, V>(a: map<K, V>, b: map<K, V>, k: K)
    ensures k !in b ==> (a - {k}) + b == (a + b) - {k}
    ensures k !in a ==> a + (b - {k}) == (a + b) - {k}
  {
  }

  lemma UnionUpdate<K, V>(a: map<K, V>, b: map<K, V>, k: K, v: V)
    ensures a + b[k := v] == (a + b)[k := v]
    ensures k !in b ==> a[k := v] + b == (a + b)[k := v]
    ensures (a - {k}) + b[k := v] == (a + b)[k := v]
  {
  }
}
