/** The LFU cache as a state machine on values: use counts, with ties broken by recency. */
module LfuSpec {
  import opened Sequences
  import opened CacheTypes

  datatype Item = Item(value: Bytes, freq: nat, ts: nat)

  datatype Lfu = Lfu(
    store: map<Key, Item>, cap: nat, hits: nat, misses: nat, evictions: nat, tick: nat)

  function Empty(cap: nat): Lfu {
    Lfu(map[], cap, 0, 0, 0, 0)
  }

  /** Less used, or used as often but longer ago. */
  predicate Before(a: Item, b: Item) {
    a.freq < b.freq || (a.freq == b.freq && a.ts < b.ts)
  }

  ghost predicate IsVictim(store: map<Key, Item>, k: Key) {
    k in store && forall j :: j in store && j != k ==> Before(store[k], store[j])
  }

  ghost function Evict(s: Lfu): Lfu {
    if exists k :: IsVictim(s.store, k) then
      var k :| IsVictim(s.store, k);
      s.(store := s.store - {k}, evictions := s.evictions + 1)
    else s
  }

  ghost function EvictTimes(s: Lfu, n: nat): Lfu
    decreases n
  {
    if n == 0 then s else EvictTimes(Evict(s), n - 1)
  }

  function Use(s: Lfu, k: Key, v: Bytes): Lfu
    requires k in s.store
  {
    s.(store := s.store[k := Item(v, s.store[k].freq + 1, s.tick + 1)], tick := s.tick + 1)
  }

  function OnGet(s: Lfu, k: Key): Lfu {
    if k in s.store then Use(s, k, s.store[k].value).(hits := s.hits + 1)
    else s.(misses := s.misses + 1)
  }

  function Insert(s: Lfu, k: Key, v: Bytes): Lfu {
    s.(store := s.store[k := Item(v, 1, s.tick + 1)], tick := s.tick + 1)
  }

  ghost function OnPut(s: Lfu, k: Key, v: Bytes): Lfu {
    if k in s.store then Use(s, k, v)
    else Insert(if |s.store| >= s.cap then Evict(s) else s, k, v)
  }

  function OnErase(s: Lfu, k: Key): Lfu {
    s.(store := s.store - {k})
  }

  /** How many evictions bring the store within its capacity. */
  function Excess(s: Lfu): nat {
    if |s.store| > s.cap then |s.store| - s.cap else 0
  }

  ghost function OnResize(s: Lfu, c: nat): Lfu {
    var r := s.(cap := c);
    EvictTimes(r, Excess(r))
  }

  /** LFU ignores hints. */
  ghost function Step(s: Lfu, op: Op): Lfu {
    match op
    case Get(k) => OnGet(s, k)
    case Put(k, v, _) => OnPut(s, k, v)
    case Erase(k) => OnErase(s, k)
    case Resize(c) => OnResize(s, c)
    case Clear => Empty(s.cap)
    case Hint(_) => s
  }

  ghost function Run(s: Lfu, ops: seq<Op>): Lfu {
    if ops == [] then s else Step(Run(s, Init(ops)), Last(ops))
  }

  /** No two items carry the same stamp, none is in the future, and each has been used. */
  ghost predicate Stamped(s: Lfu) {
    && (forall j, k :: j in s.store && k in s.store && j != k ==> s.store[j].ts != s.store[k].ts)
    && (forall k :: k in s.store ==> s.store[k].ts <= s.tick && s.store[k].freq >= 1)
  }

  lemma VictimIsUnique(store: map<Key, Item>, j: Key, k: Key)
    requires IsVictim(store, j) && IsVictim(store, k)
    ensures j == k
  {
  }

  /** One pass over the store, in whatever order its keys come: a dict in insertion order, or a
      hash map in bucket order. The order makes no difference to the answer. */
  method ScanInOrder(store: map<Key, Item>, order: seq<Key>) returns (victim: Key)
    requires order != [] && forall k :: k in store <==> k in order
    requires forall j, k :: j in store && k in store && j != k ==> store[j].ts != store[k].ts
    ensures IsVictim(store, victim)
  {
    victim := order[0];
    for i := 0 to |order|
      invariant victim in store
      invariant forall a :: 0 <= a < i && order[a] != victim ==> Before(store[victim], store[order[a]])
    {
      if Before(store[order[i]], store[victim]) {
        victim := order[i];
      }
    }
  }

  /** The same pass in an order that is not known: each round takes any key not yet seen. */
  method ScanInAnyOrder(store: map<Key, Item>) returns (victim: Key)
    requires store != map[]
    requires forall j, k :: j in store && k in store && j != k ==> store[j].ts != store[k].ts
    ensures IsVictim(store, victim)
  {
    var todo := store.Keys;
    victim :| victim in todo;
    while todo != {}
      invariant victim in store && todo <= store.Keys
      invariant forall k :: k in store && k !in todo && k != victim ==> Before(store[victim], store[k])
      decreases |todo|
    {
      var k :| k in todo;
      todo := todo - {k};
      if Before(store[k], store[victim]) {
        victim := k;
      }
    }
  }

  lemma VictimOfOneMore(store: map<Key, Item>, k: Key, v: Key) returns (w: Key)
    requires k in store && IsVictim(store - {k}, v) && store[k].ts != store[v].ts
    ensures IsVictim(store, w)
  {
    w := if Before(store[k], store[v]) then k else v;
    assert forall j :: j in store && j != k ==> j in store - {k} && (store - {k})[j] == store[j];
  }

  lemma {:induction false} VictimExists(store: map<Key, Item>)
    requires forall j, k :: j in store && k in store && j != k ==> store[j].ts != store[k].ts
    requires store != map[]
    ensures exists k :: IsVictim(store, k)
    decreases |store|
  {
    var k :| k in store;
    if store - {k} == map[] {
      assert forall j :: j in store && j != k ==> j in store - {k};
      assert IsVictim(store, k);
    } else {
      assert (store - {k}).Keys == store.Keys - {k};
      VictimExists(store - {k});
      var v :| IsVictim(store - {k}, v);
      var w := VictimOfOneMore(store, k, v);
    }
  }

  lemma EvictFacts(s: Lfu)
    requires Stamped(s)
    ensures var r := Evict(s);
      && Stamped(r) && r == s.(store := r.store, evictions := r.evictions)
      && |r.store| == (if s.store == map[] then 0 else |s.store| - 1)
      && r.evictions == s.evictions + |s.store| - |r.store|
      && (forall k :: k in r.store ==> k in s.store && r.store[k] == s.store[k])
      && (forall j, k :: j in r.store && k in s.store && k !in r.store ==> Before(s.store[k], s.store[j]))
  {
    if s.store != map[] {
      VictimExists(s.store);
      var k :| IsVictim(s.store, k) && Evict(s).store == s.store - {k};
      assert (s.store - {k}).Keys == s.store.Keys - {k};
      CardWithout(s.store.Keys, k);
    }
  }

  /** Whichever scan found it, the victim is the one that is evicted. */
  lemma VictimIsEvicted(s: Lfu, k: Key)
    requires IsVictim(s.store, k)
    ensures Evict(s) == s.(store := s.store - {k}, evictions := s.evictions + 1)
  {
    var j :| IsVictim(s.store, j) && Evict(s).store == s.store - {j};
    VictimIsUnique(s.store, j, k);
  }

  lemma EvictTowards(s: Lfu)
    requires Stamped(s) && |s.store| > s.cap
    ensures |Evict(s).store| == |s.store| - 1
    ensures EvictTimes(Evict(s), Excess(Evict(s))) == EvictTimes(s, Excess(s))
  {
    EvictFacts(s);
  }

  lemma {:induction false} EvictTimesFacts(s: Lfu, n: nat)
    requires Stamped(s) && n <= |s.store|
    ensures var r := EvictTimes(s, n);
      && Stamped(r) && r == s.(store := r.store, evictions := r.evictions)
      && |r.store| == |s.store| - n && r.evictions == s.evictions + n
      && (forall k :: k in r.store ==> k in s.store && r.store[k] == s.store[k])
    decreases n
  {
    if n > 0 {
      EvictFacts(s);
      EvictTimesFacts(Evict(s), n - 1);
    }
  }

  lemma KeptByTheRest(s: Lfu, n: nat, j: Key)
    requires Stamped(s) && n <= |s.store| && j in EvictTimes(s, n).store
    ensures j in s.store
  {
    EvictTimesFacts(s, n);
  }

  lemma FirstVictim(s: Lfu, j: Key, k: Key)
    requires Stamped(s) && j in Evict(s).store && k in s.store
    ensures j in s.store && Evict(s).store[j] == s.store[j]
    ensures k in Evict(s).store ==> Evict(s).store[k] == s.store[k]
    ensures k !in Evict(s).store ==> Before(s.store[k], s.store[j])
  {
    EvictFacts(s);
  }

  /** A resize evicts what exceeds the new capacity, and no more. */
  lemma ResizeEvictsTheExcess(s: Lfu, c: nat)
    requires Stamped(s)
    ensures var r := OnResize(s, c);
      && r.cap == c && |r.store| == Min(|s.store|, c) && r.evictions - s.evictions == |s.store| - |r.store|
      && (forall k :: k in r.store ==> k in s.store && r.store[k] == s.store[k])
  {
    EvictTimesFacts(s.(cap := c), Excess(s.(cap := c)));
  }

  /** Whatever is evicted was less used, or used as often but longer ago, than all that stays. */
  lemma {:induction false} EvictsTheLeastUsed(s: Lfu, n: nat, j: Key, k: Key)
    requires Stamped(s) && n <= |s.store|
    requires j in EvictTimes(s, n).store && k in s.store && k !in EvictTimes(s, n).store
    ensures j in s.store
    ensures s.store[k].freq < s.store[j].freq
      || (s.store[k].freq == s.store[j].freq && s.store[k].ts < s.store[j].ts)
    decreases n
  {
    if n > 0 {
      var q := Evict(s);
      assert Stamped(q) && n - 1 <= |q.store| && EvictTimes(s, n) == EvictTimes(q, n - 1) by {
        EvictFacts(s);
      }
      KeptByTheRest(q, n - 1, j);
      FirstVictim(s, j, k);
      if k in q.store {
        EvictsTheLeastUsed(q, n - 1, j, k);
      }
    }
  }

  ghost function Values(s: Lfu): map<Key, Bytes> {
    map k | k in s.store :: s.store[k].value
  }

  /** What every call keeps: distinct stamps, the capacity (a cache of capacity 0 still takes one
      entry), and agreement with the plain map. */
  ghost predicate Good(s: Lfu) {
    Stamped(s) && |s.store| <= Max(1, s.cap)
  }

  lemma UseKeepsStamped(s: Lfu, k: Key, v: Bytes)
    requires Stamped(s) && k in s.store
    ensures Stamped(Use(s, k, v))
  {
  }

  lemma UseKeepsGood(s: Lfu, k: Key, v: Bytes)
    requires Good(s) && k in s.store
    ensures Good(Use(s, k, v))
  {
    UseKeepsStamped(s, k, v);
    assert Use(s, k, v).store.Keys == s.store.Keys;
  }

  lemma InsertKeepsStamped(s: Lfu, k: Key, v: Bytes)
    requires Stamped(s)
    ensures Stamped(Insert(s, k, v))
  {
  }

  lemma InsertKeepsGood(s: Lfu, k: Key, v: Bytes)
    requires Stamped(s) && k !in s.store && |s.store| < Max(1, s.cap)
    ensures Good(Insert(s, k, v))
  {
    InsertKeepsStamped(s, k, v);
    assert Insert(s, k, v).store.Keys == s.store.Keys + {k};
  }

  lemma PutKeepsGood(s: Lfu, k: Key, v: Bytes)
    requires Good(s)
    ensures Good(OnPut(s, k, v))
  {
    if k in s.store {
      UseKeepsGood(s, k, v);
    } else {
      EvictFacts(s);
      InsertKeepsGood(if |s.store| >= s.cap then Evict(s) else s, k, v);
    }
  }

  lemma PutFrame(s: Lfu, k: Key, v: Bytes)
    requires Good(s)
    ensures var r := OnPut(s, k, v);
      && r.cap == s.cap && r.hits == s.hits && r.misses == s.misses
      && k in r.store && r.store[k].value == v
      && r.store[k].freq == (if k in s.store then s.store[k].freq + 1 else 1)
      && (forall j :: j in r.store && j != k ==> j in s.store && r.store[j] == s.store[j])
  {
    EvictFacts(s);
  }

  lemma InsertGrows(s: Lfu, k: Key, v: Bytes)
    requires k !in s.store
    ensures |Insert(s, k, v).store| == |s.store| + 1 && Insert(s, k, v).evictions == s.evictions
  {
    assert Insert(s, k, v).store.Keys == s.store.Keys + {k};
  }

  /** A new key evicts an entry exactly if the store is full and not empty, any other key never. */
  lemma PutEvictsWhenFull(s: Lfu, k: Key, v: Bytes)
    requires Stamped(s)
    ensures var r, full := OnPut(s, k, v), k !in s.store && |s.store| >= Max(1, s.cap);
      && r.evictions == s.evictions + (if full then 1 else 0)
      && |r.store| == if k in s.store || full then |s.store| else |s.store| + 1
  {
    if k in s.store {
      assert Use(s, k, v).store.Keys == s.store.Keys;
    } else {
      EvictFacts(s);
      InsertGrows(if |s.store| >= s.cap then Evict(s) else s, k, v);
    }
  }

  lemma StepKeepsGood(s: Lfu, op: Op)
    requires Good(s)
    ensures Good(Step(s, op))
  {
    match op
    case Get(k) =>
      if k in s.store {
        UseKeepsGood(s, k, s.store[k].value);
      }
    case Put(k, v, _) => PutKeepsGood(s, k, v);
    case Erase(k) =>
      assert OnErase(s, k).store.Keys == s.store.Keys - {k};
      CardWithout(s.store.Keys, k);
    case Resize(c) => EvictTimesFacts(s.(cap := c), Excess(s.(cap := c)));
    case Clear =>
    case Hint(_) =>
  }

  lemma StepAgreesWithMap(s: Lfu, m: map<Key, Bytes>, op: Op)
    requires Good(s) && SubMap(Values(s), m)
    ensures SubMap(Values(Step(s, op)), MapStep(m, op))
    ensures op.Put? ==> Lookup(Values(Step(s, op)), op.key) == Some(op.value)
    ensures Step(s, op).hits
            == if op.Clear? then 0 else s.hits + if op.Get? && op.key in Values(s) then 1 else 0
    ensures Step(s, op).misses
            == if op.Clear? then 0 else s.misses + if op.Get? && op.key !in Values(s) then 1 else 0
  {
    match op
    case Put(k, v, _) => PutFrame(s, k, v);
    case Resize(c) => EvictTimesFacts(s.(cap := c), Excess(s.(cap := c)));
    case _ =>
  }

  /** Over every run: stamps stay distinct, the residents fit the capacity (or are one), they hold
      what a plain map would hold for them, and every lookup is counted once. */
  lemma {:induction false} AgreesWithPlainMap(c: nat, ops: seq<Op>)
    ensures var s := Run(Empty(c), ops);
      Good(s) && SubMap(Values(s), PlainMap(ops)) && s.hits + s.misses == Lookups(ops)
  {
    if ops != [] {
      AgreesWithPlainMap(c, Init(ops));
      StepKeepsGood(Run(Empty(c), Init(ops)), Last(ops));
      StepAgreesWithMap(Run(Empty(c), Init(ops)), PlainMap(Init(ops)), Last(ops));
    }
  }

  /** Hits on `k` and overwrites of `k` since it was last inserted. */
  ghost function Uses(c: nat, ops: seq<Op>, k: Key): nat {
    if ops == [] then 0
    else
      var resident, n := k in Run(Empty(c), Init(ops)).store, Uses(c, Init(ops), k);
      match Last(ops)
      case Get(j) => if j == k && resident then n + 1 else n
      case Put(j, _, _) => if j != k then n else if resident then n + 1 else 0
      case _ => n
  }

  /** An entry's frequency is one plus its uses since insertion. */
  lemma {:induction false} FrequencyCountsUses(c: nat, ops: seq<Op>, k: Key)
    requires k in Run(Empty(c), ops).store
    ensures Run(Empty(c), ops).store[k].freq == 1 + Uses(c, ops, k)
  {
    var s, op := Run(Empty(c), Init(ops)), Last(ops);
    AgreesWithPlainMap(c, Init(ops));
    if op.Put? {
      PutFrame(s, op.key, op.value);
    } else if op.Resize? {
      EvictTimesFacts(s.(cap := op.capacity), Excess(s.(cap := op.capacity)));
    }
    if k in s.store {
      FrequencyCountsUses(c, Init(ops), k);
    }
  }

  // ------------------------------------------------------------------
  // Which entry goes, said of the calls.
  // ------------------------------------------------------------------

  /** When `k` was last hit, overwritten or inserted: the number of calls up to then. */
  ghost function LastUse(c: nat, ops: seq<Op>, k: Key): nat {
    if ops == [] then 0
    else
      match Last(ops)
      case Get(j) =>
        if j == k && k in Run(Empty(c), Init(ops)).store then |ops| else LastUse(c, Init(ops), k)
      case Put(j, _, _) => if j == k then |ops| else LastUse(c, Init(ops), k)
      case _ => LastUse(c, Init(ops), k)
  }

  lemma {:induction false} LastUseRange(c: nat, ops: seq<Op>, k: Key)
    ensures LastUse(c, ops, k) <= |ops|
  {
    if ops != [] {
      LastUseRange(c, Init(ops), k);
    }
  }

  /** `k` has just been stamped, and nothing else has been added or changed. */
  ghost predicate JustUsed(s: Lfu, r: Lfu, k: Key) {
    && k in r.store
    && forall j :: j in r.store && j != k ==>
         j in s.store && r.store[j] == s.store[j] && r.store[j].ts < r.store[k].ts
  }

  lemma InsertStamps(s: Lfu, q: Lfu, k: Key, v: Bytes)
    requires Stamped(q) && q.tick == s.tick
    requires forall j :: j in q.store ==> j in s.store && q.store[j] == s.store[j]
    ensures JustUsed(s, Insert(q, k, v), k)
  {
  }

  lemma PutStamps(s: Lfu, k: Key, v: Bytes)
    requires Good(s)
    ensures JustUsed(s, OnPut(s, k, v), k)
  {
    if k !in s.store {
      EvictFacts(s);
      InsertStamps(s, if |s.store| >= s.cap then Evict(s) else s, k, v);
    }
  }

  /** A call stamps at most the key it uses, later than all others; the other entries that stay are
      as they were. */
  lemma StepStamps(s: Lfu, op: Op, j: Key)
    requires Good(s) && j in Step(s, op).store
    ensures var r := Step(s, op);
      if (op.Put? || op.Get?) && op.key == j then
        forall k :: k in r.store && k != j ==> r.store[k].ts < r.store[j].ts
      else j in s.store && r.store[j] == s.store[j]
  {
    match op
    case Put(k, v, _) => PutStamps(s, k, v);
    case Resize(c) => EvictTimesFacts(s.(cap := c), Excess(s.(cap := c)));
    case _ =>
  }

  /** Of two entries the one with the smaller stamp is the one used longer ago. */
  lemma {:induction false} StampsAreLastUses(c: nat, ops: seq<Op>, j: Key, k: Key)
    requires j in Run(Empty(c), ops).store && k in Run(Empty(c), ops).store
    ensures var store := Run(Empty(c), ops).store;
      store[j].ts < store[k].ts <==> LastUse(c, ops, j) < LastUse(c, ops, k)
  {
    var s, op := Run(Empty(c), Init(ops)), Last(ops);
    AgreesWithPlainMap(c, Init(ops));
    StepStamps(s, op, j);
    StepStamps(s, op, k);
    LastUseRange(c, Init(ops), j);
    LastUseRange(c, Init(ops), k);
    if j in s.store && k in s.store {
      StampsAreLastUses(c, Init(ops), j, k);
    }
  }

  lemma StepEvictsTheLeastUsed(s: Lfu, op: Op, j: Key, k: Key)
    requires Good(s) && (op.Put? || op.Resize?) && k in s.store && k !in Step(s, op).store
    requires j in s.store && j in Step(s, op).store && !(op.Put? && op.key == j)
    ensures s.store[k].freq < s.store[j].freq
      || (s.store[k].freq == s.store[j].freq && s.store[k].ts < s.store[j].ts)
  {
    match op
    case Put(i, v, _) => EvictFacts(s);
    case Resize(c) => EvictsTheLeastUsed(s.(cap := c), Excess(s.(cap := c)), j, k);
  }

  /** Over every run: whatever a put or a resize evicts had fewer hits and overwrites since it was
      inserted than each entry that stays, or as many and the last of its uses came earlier. */
  lemma EvictsByUseThenAge(c: nat, ops: seq<Op>, op: Op, j: Key, k: Key)
    requires op.Put? || op.Resize?
    requires var s, r := Run(Empty(c), ops), Run(Empty(c), ops + [op]);
      && k in s.store && k !in r.store
      && j in s.store && j in r.store && !(op.Put? && op.key == j)
    ensures Uses(c, ops, k) < Uses(c, ops, j)
      || (Uses(c, ops, k) == Uses(c, ops, j) && LastUse(c, ops, k) < LastUse(c, ops, j))
  {
    assert Init(ops + [op]) == ops;
    AgreesWithPlainMap(c, ops);
    StepEvictsTheLeastUsed(Run(Empty(c), ops), op, j, k);
    FrequencyCountsUses(c, ops, j);
    FrequencyCountsUses(c, ops, k);
    StampsAreLastUses(c, ops, k, j);
  }
}
