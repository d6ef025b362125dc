/** What LRU does on whole traces: which keys it holds, and how its hits grow with capacity. */
module LruTraces {
  import opened Sequences
  import opened CacheTypes
  import opened LruSpec

  /** One request of a trace: an access looks the key up and puts `value` on a miss. */
  datatype Request = Access(key: Key, value: Bytes) | Write(key: Key, value: Bytes) | Drop(key: Key)

  function Serve(s: Lru, r: Request): Lru {
    match r
    case Access(k, v) => if k in s.order then OnGet(s, k) else OnPut(OnGet(s, k), k, v)
    case Write(k, v) => OnPut(s, k, v)
    case Drop(k) => OnErase(s, k)
  }

  function ServeAll(s: Lru, rs: seq<Request>): Lru {
    if rs == [] then s else Serve(ServeAll(s, Init(rs)), Last(rs))
  }

  function Cut<T>(s: seq<T>, n: nat): seq<T> {
    if |s| <= n then s else s[..n]
  }

  /** A request moves its key to the front, or takes it out. */
  lemma ServeOrder(s: Lru, r: Request)
    requires Shape(s)
    ensures Shape(Serve(s, r)) && Serve(s, r).cap == s.cap
    ensures Serve(s, r).order
      == if r.Drop? then Without(s.order, r.key) else Cut(ToFront(s.order, r.key), s.cap)
    ensures Serve(s, r).hits == s.hits + (if r.Access? && r.key in s.order then 1 else 0)
    ensures Serve(s, r).misses == s.misses + (if r.Access? && r.key !in s.order then 1 else 0)
  {
    ToFrontFacts(s.order, r.key);
    match r
    case Access(k, v) =>
      StepKeepsShape(s, Get(k));
      if k !in s.order {
        WithoutAbsent(s.order, k);
        StepKeepsShape(OnGet(s, k), Put(k, v, k));
      }
    case Write(k, v) =>
      StepKeepsShape(s, Put(k, v, k));
      if k !in s.order {
        WithoutAbsent(s.order, k);
      }
    case Drop(k) =>
      StepKeepsShape(s, Erase(k));
      if k !in s.order {
        WithoutAbsent(s.order, k);
      }
  }

  lemma PrefixServe(s: seq<Key>, c: nat, t: seq<Key>, d: nat, k: Key)
    requires s <= t && Distinct(t) && c <= d
    ensures Without(s, k) <= Without(t, k)
    ensures Cut(ToFront(s, k), c) <= Cut(ToFront(t, k), d)
  {
    PrefixWithout(s, t, k);
    assert ToFront(s, k) <= ToFront(t, k);
  }

  /** Stack inclusion: on the same requests the list of the smaller cache is always a prefix of
      the list of the larger one, so it never hits where the larger one misses. */
  lemma {:induction false} StackInclusion(c: nat, d: nat, rs: seq<Request>)
    requires c <= d
    ensures var s, t := ServeAll(Empty(c), rs), ServeAll(Empty(d), rs);
      && Shape(s) && Shape(t) && s.cap == c && t.cap == d
      && s.order <= t.order && s.hits <= t.hits && t.misses <= s.misses
      && (forall k :: k in s.order ==> k in t.order)
  {
    if rs != [] {
      var s, t, r := ServeAll(Empty(c), Init(rs)), ServeAll(Empty(d), Init(rs)), Last(rs);
      StackInclusion(c, d, Init(rs));
      ServeOrder(s, r);
      ServeOrder(t, r);
      PrefixServe(s.order, c, t.order, d, r.key);
    }
  }

  /** A lookup alone, without the put that follows a miss, keeps the inclusion exactly when it does
      not hit in the larger cache only, or when the smaller cache is empty. */
  lemma LookupKeepsInclusion(s: Lru, t: Lru, k: Key)
    requires Shape(s) && Shape(t) && s.order <= t.order
    ensures OnGet(s, k).order <= OnGet(t, k).order
      <==> s.order == [] || k in s.order || k !in t.order
  {
    if k in s.order {
      PrefixServe(s.order, s.cap, t.order, |t.order| + s.cap, k);
      assert ToFront(s.order, k) <= ToFront(t.order, k);
    } else if k in t.order && s.order != [] {
      assert ToFront(t.order, k)[0] == k && s.order[0] != k;
    }
  }

  /** Runs in which a lookup without the put that follows a miss does break it. */
  lemma LookupsAloneBreakInclusion(x: Key, y: Key, v: Bytes)
    requires x != y
    ensures var ops := [Put(x, v, x), Put(y, v, x), Get(x)];
      !(Run(Empty(1), ops).order <= Run(Empty(2), ops).order)
  {
    var ops := [Put(x, v, x), Put(y, v, x), Get(x)];
    assert Init(ops) == [ops[0], ops[1]] && Init(Init(ops)) == [ops[0]] && Init([ops[0]]) == [];
    forall c: nat | 1 <= c <= 2
      ensures Run(Empty(c), Init(ops)).order == if c == 1 then [y] else [y, x]
    {
      assert Run(Empty(c), [ops[0]]) == Empty(c).(order := [x], val := map[x := v]);
    }
  }

  function RequestKeys(rs: seq<Request>): seq<Key> {
    seq(|rs|, i requires 0 <= i < |rs| => rs[i].key)
  }

  lemma CutToFront(l: seq<Key>, c: nat, k: Key)
    requires Distinct(l)
    ensures Cut(ToFront(Cut(l, c), k), c) == Cut(ToFront(l, k), c)
  {
    PrefixServe(Cut(l, c), c, l, c, k);
    ToFrontFacts(l, k);
    CutFacts(l, |Cut(l, c)|);
    ToFrontFacts(Cut(l, c), k);
  }

  lemma MentionOneMore(rs: seq<Request>, c: nat)
    requires rs != []
    ensures var l, k := ByLastMention(RequestKeys(Init(rs))), Last(rs).key;
      Cut(ToFront(Cut(l, c), k), c) == Cut(ByLastMention(RequestKeys(rs)), c)
  {
    var keys, k := RequestKeys(Init(rs)), Last(rs).key;
    assert RequestKeys(rs) == keys + [k];
    LastMentionSnoc(keys, k);
    ByLastMentionFacts(keys);
    CutToFront(ByLastMention(keys), c, k);
  }

  /** After any accesses and writes the cache holds exactly the `c` most recently requested
      distinct keys, latest first. */
  lemma {:induction false} HoldsTheMostRecent(c: nat, rs: seq<Request>)
    requires forall i :: 0 <= i < |rs| ==> !rs[i].Drop?
    ensures var s := ServeAll(Empty(c), rs);
      Shape(s) && s.cap == c && s.order == Cut(ByLastMention(RequestKeys(rs)), c)
  {
    if rs != [] {
      HoldsTheMostRecent(c, Init(rs));
      ServeOrder(ServeAll(Empty(c), Init(rs)), Last(rs));
      MentionOneMore(rs, c);
    }
  }
}
