/** ARC at capacity 0, which the paused power mode asks of the model cache. The code still inserts. */
module ArcZeroCapacity {
  import opened Sequences
  import opened CacheTypes
  import opened ArcSpec
  import opened ArcInvariants
  import opened ArcAccounting

  /** What a cache built at capacity 0 keeps: no ghosts, and at most the latest new key in `t1`. */
  ghost predicate Zeroed(s: Arc) {
    s.cap == 0 && |s.t1| <= 1 && s.b1 == {} && s.b2 == {}
  }

  lemma PromoteAtZero(s: Arc, k: Key)
    requires Shape(s)
    ensures forall j :: j in s.t2 ==> j in Promote(s, k).t2
    ensures |Promote(s, k).t1| <= |s.t1|
  {
    WithoutFacts(s.t1, k);
    ToFrontFacts(s.t2, k);
  }

  lemma {:induction false} HintKeepsT2(s: Arc, ks: seq<Key>)
    requires Shape(s)
    ensures forall j :: j in s.t2 ==> j in OnHint(s, ks).t2
    ensures |OnHint(s, ks).t1| <= |s.t1|
    ensures var r := OnHint(s, ks); r == s.(t1 := r.t1, t2 := r.t2)
    decreases |ks|
  {
    if ks != [] {
      PromoteAtZero(s, ks[0]);
      PromoteKeepsShape(s, ks[0]);
      HintKeepsT2(Promote(s, ks[0]), ks[1..]);
    }
  }

  /** Nothing but `erase` and `clear` takes a key out of `t2`. */
  lemma StepAtZero(s: Arc, op: Op)
    requires Shape(s) && Zeroed(s) && !op.Resize?
    ensures Shape(Step(s, op)) && Zeroed(Step(s, op))
    ensures forall k :: k in s.t2 && !op.Clear? && op != Erase(k) ==> k in Step(s, op).t2
  {
    StepKeepsShape(s, op);
    StepCapacity(s, op);
    match op
    case Get(k) => PromoteAtZero(s, k);
    case Put(k, v, pick) => PromoteAtZero(s, k);
    case Erase(k) =>
      WithoutFacts(s.t1, k);
      WithoutFacts(s.t2, k);
    case Clear =>
    case Hint(ks) => HintKeepsT2(s, ks);
  }

  /** A key in `t2` stays, with every other such key, for as long as it is not erased and the cache
      is not cleared or resized. */
  lemma {:induction false} TouchedKeysStay(s: Arc, ops: seq<Op>, k: Key)
    requires Shape(s) && Zeroed(s) && k in s.t2
    requires forall i :: 0 <= i < |ops| ==> !ops[i].Resize? && !ops[i].Clear? && ops[i] != Erase(k)
    ensures k in Run(s, ops).t2 && Shape(Run(s, ops)) && Zeroed(Run(s, ops))
  {
    if ops != [] {
      TouchedKeysStay(s, Init(ops), k);
      StepAtZero(Run(s, Init(ops)), Last(ops));
    }
  }

  /** Over every run of a cache built at capacity 0 and never resized, ghosts never appear and `t1`
      holds one key at most. */
  lemma {:induction false} ZeroCapacity(ops: seq<Op>)
    requires forall i :: 0 <= i < |ops| ==> !ops[i].Resize?
    ensures Shape(Run(Empty(0), ops)) && Zeroed(Run(Empty(0), ops))
  {
    if ops != [] {
      ZeroCapacity(Init(ops));
      StepAtZero(Run(Empty(0), Init(ops)), Last(ops));
    }
  }

  /** The key is a ghost, and the target it adapts makes `replace` turn to `t2`. */
  predicate TurnsToT2(s: Arc, k: Key) {
    && !s.Resident(k) && (k in s.b1 || k in s.b2)
    && !TakesT1(s.(p := TargetFor(s, k)), k !in s.b1)
  }

  /** In every state at capacity 0, ghosts and target left by a shrink included: a put never lowers
      the number of residents and always leaves more than the capacity; it counts an eviction for
      each new key that finds `t1` occupied and for each ghost; and `t2` loses a key, its last, for a
      ghost that finds nothing to take in `t1`, and never otherwise. */
  lemma PutAtZero(s: Arc, k: Key, v: Bytes, pick: Key)
    requires Shape(s) && s.cap == 0
    ensures var r := OnPut(s, k, v, pick);
      && r.Size() > r.cap == 0 && r.Size() >= s.Size()
      && r.evictions - s.evictions
         == (if !s.Resident(k) && (s.t1 != [] || k in s.b1 || k in s.b2) then 1 else 0)
      && forall j :: j in s.t2 && j !in r.t2 <==> TurnsToT2(s, k) && s.t2 != [] && j == Last(s.t2)
  {
    var r := OnPut(s, k, v, pick);
    PutAddsOnlyItsKey(s, k, v, pick);
    PutKeepsShape(s, k, v, pick);
    if s.Resident(k) {
      PromoteKeepsShape(s, k);
      PromoteAtZero(s, k);
    } else {
      PutAccounting(s, k, v, pick);
      if s.t2 != [] { InitFacts(s.t2); }
    }
  }

  function PutAndGetEach(ks: seq<Key>, v: Bytes): seq<Op> {
    if ks == [] then [] else PutAndGetEach(Init(ks), v) + [Put(Last(ks), v, ""), Get(Last(ks))]
  }

  /** So a cache of capacity 0 grows without bound: reading each new key keeps them all. */
  lemma {:induction false} ZeroCapacityGrows(ks: seq<Key>, v: Bytes)
    requires Distinct(ks)
    ensures var s := Run(Empty(0), PutAndGetEach(ks, v));
      && s.cap == 0 && s.t1 == [] && s.b1 == {} && s.b2 == {}
      && (forall k :: k in s.t2 <==> k in ks) && s.Size() == |ks|
  {
    if ks != [] {
      ZeroCapacityGrows(Init(ks), v);
      var ops, k := PutAndGetEach(Init(ks), v), Last(ks);
      var all := ops + [Put(k, v, ""), Get(k)];
      assert Init(all) == ops + [Put(k, v, "")] && Init(Init(all)) == ops;
      InitFacts(ks);
      assert Run(Empty(0), all).t2 == [k] + Run(Empty(0), ops).t2;
    }
  }
}
