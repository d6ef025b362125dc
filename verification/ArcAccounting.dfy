/** How many entries an ARC cache holds and how many evictions it reports. */
module ArcAccounting {
  import opened Sequences
  import opened CacheTypes
  import opened ArcSpec
  import opened ArcInvariants

  predicate CallsReplace(s: Arc, k: Key) {
    || k in s.b1 || k in s.b2
    || (if |s.t1| + |s.b1| >= s.cap then |s.t1| < s.cap else s.Total() >= s.cap)
  }

  /** The put of the non-resident key `k` counts an eviction. */
  predicate Evicts(s: Arc, k: Key) {
    CallsReplace(s, k) || (|s.t1| + |s.b1| >= s.cap && s.t1 != [])
  }

  /** The put of `k` calls `replace`, and `replace` finds no victim in either list. */
  predicate Victimless(s: Arc, k: Key) {
    && CallsReplace(s, k) && s.t2 == []
    && !TakesT1(s.(p := TargetFor(s, k)), k !in s.b1 && k in s.b2)
  }

  lemma FreshAccounting(s: Arc, k: Key, v: Bytes, pick: Key)
    requires Shape(s) && !s.Known(k)
    ensures var r := Admit1(MakeRoom(s, pick), k, v);
      && r.Size() + r.evictions == s.Size() + 1 + s.evictions + (if Victimless(s, k) then 1 else 0)
      && r.evictions == s.evictions + if Evicts(s, k) then 1 else 0
  {
    if |s.t1| + |s.b1| >= s.cap {
      ReplaceSizes(s.(b1 := Forget(s.b1, pick)), false);
    } else {
      ReplaceSizes(if s.Total() == 2 * s.cap then s.(b2 := Forget(s.b2, pick)) else s, false);
    }
  }

  /** Every put of a non-resident key adds one entry and takes one out for each eviction it
      counts, except that an eviction without a victim is counted all the same. */
  lemma PutAccounting(s: Arc, k: Key, v: Bytes, pick: Key)
    requires Shape(s) && !s.Resident(k)
    ensures var r := OnPut(s, k, v, pick);
      && r.Size() + r.evictions == s.Size() + 1 + s.evictions + (if Victimless(s, k) then 1 else 0)
      && r.evictions == s.evictions + if Evicts(s, k) then 1 else 0
  {
    if k in s.b1 || k in s.b2 {
      ReplaceSizes(s.(p := TargetFor(s, k)), k !in s.b1);
    } else {
      FreshAccounting(s, k, v, pick);
    }
  }

  // ------------------------------------------------------------------
  // Fullness: condition A.4 of the ARC paper.
  // ------------------------------------------------------------------

  /** No ghosts before the directory holds `cap` keys, and a full cache from then on. */
  ghost predicate Full(s: Arc) {
    if s.Total() < s.cap then s.b1 == {} && s.b2 == {} else s.Size() == s.cap
  }

  ghost predicate Good(s: Arc) {
    s.cap >= 1 && Shape(s) && Bounds(s) && Full(s)
  }

  predicate Steady(op: Op) {
    !op.Erase? && !op.Resize?
  }

  lemma GhostCount(s: Arc, k: Key)
    ensures k in s.b1 ==> |s.b1| >= 1
    ensures k in s.b2 ==> |s.b2| >= 1
  {
  }

  /** In a full cache `replace` always removes an entry. */
  lemma ReplaceFindsAVictim(s: Arc, k: Key)
    requires Good(s) && !s.Resident(k)
    ensures !Victimless(s, k)
  {
    TargetRange(s);
    GhostCount(s, k);
  }

  lemma GhostHitKeepsFull(s: Arc, inB2: bool, k: Key, v: Bytes)
    requires Shape(s) && s.Size() == s.cap
    requires TakesT1(s, inB2) || s.t2 != []
    ensures Admit2(Replace(s, inB2), inB2, k, v).Size() == s.cap
    ensures Full(Admit2(Replace(s, inB2), inB2, k, v))
  {
    ReplaceSizes(s, inB2);
  }

  lemma FreshKeepsFull(s: Arc, k: Key, v: Bytes, pick: Key)
    requires Good(s) && !s.Known(k)
    ensures Full(Admit1(MakeRoom(s, pick), k, v))
  {
    ReplaceFindsAVictim(s, k);
    FreshAccounting(s, k, v, pick);
  }

  lemma PutKeepsFull(s: Arc, k: Key, v: Bytes, pick: Key)
    requires Good(s)
    ensures Full(OnPut(s, k, v, pick))
  {
    if s.Resident(k) {
      PromoteKeepsShape(s, k);
    } else {
      ReplaceFindsAVictim(s, k);
      GhostCount(s, k);
      if k in s.b1 || k in s.b2 {
        GhostHitKeepsFull(s.(p := TargetFor(s, k)), k !in s.b1, k, v);
      } else {
        FreshKeepsFull(s, k, v, pick);
      }
    }
  }

  lemma StepKeepsFull(s: Arc, op: Op)
    requires Good(s) && Steady(op)
    ensures Full(Step(s, op))
  {
    match op
    case Get(k) => PromoteKeepsShape(s, k);
    case Put(k, v, pick) => PutKeepsFull(s, k, v, pick);
    case Clear =>
    case Hint(ks) => HintKeepsShape(s, ks);
  }

  /** Puts of keys that were not resident, since the last `Clear`. */
  ghost function Insertions(s: Arc, ops: seq<Op>): nat {
    if ops == [] then 0
    else
      var n := Insertions(s, Init(ops));
      match Last(ops)
      case Put(k, _, _) => if Run(s, Init(ops)).Resident(k) then n else n + 1
      case Clear => 0
      case _ => n
  }

  lemma StepAccounting(s: Arc, op: Op)
    requires Good(s) && Steady(op)
    ensures var r := Step(s, op);
      if op.Clear? then r.Size() == r.evictions == 0
      else r.Size() + r.evictions
           == s.Size() + s.evictions + if op.Put? && !s.Resident(op.key) then 1 else 0
  {
    match op
    case Get(k) => PromoteKeepsShape(s, k);
    case Put(k, v, pick) =>
      if s.Resident(k) {
        PromoteKeepsShape(s, k);
      } else {
        PutAccounting(s, k, v, pick);
        ReplaceFindsAVictim(s, k);
      }
    case Clear =>
    case Hint(ks) => HintKeepsShape(s, ks);
  }

  /** At a fixed capacity of at least 1 and with no erase, the cache is full from the moment the
      directory holds `c` keys, and what was inserted is what is resident plus what was evicted. */
  lemma {:induction false} StaysFullAndCountsHonestly(c: nat, ops: seq<Op>)
    requires c >= 1 && forall i :: 0 <= i < |ops| ==> Steady(ops[i])
    ensures var s := Run(Empty(c), ops);
      Good(s) && s.cap == c && Insertions(Empty(c), ops) == s.Size() + s.evictions
  {
    if ops != [] {
      var t := Run(Empty(c), Init(ops));
      StaysFullAndCountsHonestly(c, Init(ops));
      StepKeepsShape(t, Last(ops));
      StepKeepsBounds(t, Last(ops));
      StepKeepsFull(t, Last(ops));
      StepCapacity(t, Last(ops));
      StepAccounting(t, Last(ops));
    }
  }
}
