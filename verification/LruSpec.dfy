/** The LRU cache as a state machine on values. `order` lists the keys, most recent first. */
module LruSpec {
  import opened Sequences
  import opened CacheTypes

  datatype Lru = Lru(
    order: seq<Key>, val: map<Key, Bytes>, cap: nat, hits: nat, misses: nat, evictions: nat)

  function Empty(cap: nat): Lru {
    Lru([], map[], cap, 0, 0, 0)
  }

  /** Evicts from the back until the capacity is met. */
  function Trim(s: Lru): Lru {
    if |s.order| <= s.cap then s
    else s.(order := s.order[..s.cap], val := s.val - Elems(s.order[s.cap..]),
            evictions := s.evictions + |s.order| - s.cap)
  }

  function OnGet(s: Lru, k: Key): Lru {
    if k in s.order then s.(order := ToFront(s.order, k), hits := s.hits + 1)
    else s.(misses := s.misses + 1)
  }

  function OnPut(s: Lru, k: Key, v: Bytes): Lru {
    if k in s.order then s.(order := ToFront(s.order, k), val := s.val[k := v])
    else Trim(s.(order := [k] + s.order, val := s.val[k := v]))
  }

  function OnErase(s: Lru, k: Key): Lru {
    if k in s.order then s.(order := Without(s.order, k), val := s.val - {k}) else s
  }

  /** LRU ignores hints. */
  function Step(s: Lru, op: Op): Lru {
    match op
    case Get(k) => OnGet(s, k)
    case Put(k, v, _) => OnPut(s, k, v)
    case Erase(k) => OnErase(s, k)
    case Resize(c) => Trim(s.(cap := c))
    case Clear => Empty(s.cap)
    case Hint(_) => s
  }

  function Run(s: Lru, ops: seq<Op>): Lru {
    if ops == [] then s else Step(Run(s, Init(ops)), Last(ops))
  }

  ghost predicate Shape(s: Lru) {
    Distinct(s.order) && |s.order| <= s.cap && forall k :: k in s.val <==> k in s.order
  }

  lemma TrimFacts(s: Lru)
    requires Distinct(s.order) && forall k :: k in s.val <==> k in s.order
    ensures Shape(Trim(s))
    ensures forall k :: k in Trim(s).val ==> k in s.val && Trim(s).val[k] == s.val[k]
  {
    if |s.order| > s.cap {
      CutFacts(s.order, s.cap);
    }
  }

  /** One round of the eviction loop gets no further than the whole loop. */
  lemma TrimOne(s: Lru)
    requires |s.order| > s.cap && Distinct(s.order)
    ensures Trim(s.(order := Init(s.order), val := s.val - {Last(s.order)}, evictions := s.evictions + 1))
            == Trim(s)
  {
    DropTail(s.val, s.order, s.cap);
    if |s.order| - 1 == s.cap {
      assert Elems(Init(s.order)[s.cap..]) == {};
    }
  }

  lemma StepKeepsShape(s: Lru, op: Op)
    requires Shape(s)
    ensures Shape(Step(s, op))
  {
    match op
    case Get(k) => ToFrontFacts(s.order, k);
    case Put(k, v, _) =>
      ToFrontFacts(s.order, k);
      if k !in s.order {
        TrimFacts(s.(order := [k] + s.order, val := s.val[k := v]));
      }
    case Erase(k) => WithoutFacts(s.order, k);
    case Resize(c) => TrimFacts(s.(cap := c));
    case Clear =>
    case Hint(_) =>
  }

  lemma StepAgreesWithMap(s: Lru, m: map<Key, Bytes>, op: Op)
    requires Shape(s) && SubMap(s.val, m)
    ensures SubMap(Step(s, op).val, MapStep(m, op))
    ensures op.Put? && s.cap >= 1 ==> Lookup(Step(s, op).val, op.key) == Some(op.value)
  {
    match op
    case Put(k, v, _) =>
      if k !in s.order {
        TrimFacts(s.(order := [k] + s.order, val := s.val[k := v]));
        StepKeepsShape(s, op);
        assert s.cap >= 1 ==> OnPut(s, k, v).order[0] == k;
      }
    case Resize(c) => TrimFacts(s.(cap := c));
    case _ =>
  }

  /** What a call does to the counters: lookups that find their key are hits and the others misses,
      and each entry that comes in stays, is erased, or counts as evicted. A resize keeps the most
      recent entries that fit. */
  lemma StepCounts(s: Lru, op: Op)
    requires Shape(s) && !op.Clear?
    ensures var r := Step(s, op);
      && r.hits == s.hits + (if op.Get? && op.key in s.order then 1 else 0)
      && r.misses == s.misses + (if op.Get? && op.key !in s.order then 1 else 0)
      && |r.order| + r.evictions + (if op.Erase? && op.key in s.order then 1 else 0)
         == |s.order| + s.evictions + (if op.Put? && op.key !in s.order then 1 else 0)
      && (op.Resize? ==> r.order == s.order[..Min(|s.order|, op.capacity)])
  {
    match op
    case Get(k) => ToFrontFacts(s.order, k);
    case Put(k, v, _) => ToFrontFacts(s.order, k);
    case Erase(k) => WithoutFacts(s.order, k);
    case _ =>
  }

  /** Over every run, resizes included, the residents fit the capacity and hold what a plain map
      would hold for them, and every lookup is counted once. */
  lemma {:induction false} AgreesWithPlainMap(c: nat, ops: seq<Op>)
    ensures var s := Run(Empty(c), ops);
      Shape(s) && SubMap(s.val, PlainMap(ops)) && s.hits + s.misses == Lookups(ops)
  {
    if ops != [] {
      AgreesWithPlainMap(c, Init(ops));
      StepKeepsShape(Run(Empty(c), Init(ops)), Last(ops));
      StepAgreesWithMap(Run(Empty(c), Init(ops)), PlainMap(Init(ops)), Last(ops));
    }
  }
}
