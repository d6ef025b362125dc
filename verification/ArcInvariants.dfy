module ArcInvariants {
  import opened Sequences
  import opened CacheTypes
  import opened ArcSpec

  /** The four lists share no key, and exactly the residents have a value. */
  ghost predicate Shape(s: Arc) {
    && Distinct(s.t1) && Distinct(s.t2) && s.b1 !! s.b2
    && (forall k :: k in s.t1 ==> k !in s.t2 && k !in s.b1 && k !in s.b2)
    && (forall k :: k in s.t2 ==> k !in s.b1 && k !in s.b2)
    && (forall k :: k in s.val <==> s.Resident(k))
  }

  lemma PromoteKeepsShape(s: Arc, k: Key)
    requires Shape(s)
    ensures Shape(Promote(s, k))
    ensures forall j :: Promote(s, k).Resident(j) <==> s.Resident(j)
    ensures Promote(s, k).Size() == s.Size()
    ensures |Promote(s, k).t1| <= |s.t1|
  {
    WithoutFacts(s.t1, k);
    WithoutFacts(s.t2, k);
  }

  lemma ReplaceKeepsShape(s: Arc, inB2: bool)
    requires Shape(s)
    ensures Shape(Replace(s, inB2))
    ensures forall j :: Replace(s, inB2).Known(j) <==> s.Known(j)
    ensures forall j :: Replace(s, inB2).Resident(j) ==> s.Resident(j)
  {
    if s.t1 != [] { InitFacts(s.t1); }
    if s.t2 != [] { InitFacts(s.t2); }
  }

  lemma DropT1KeepsShape(s: Arc)
    requires Shape(s) && s.t1 != []
    ensures Shape(s.(t1 := Init(s.t1), val := s.val - {Last(s.t1)}, evictions := s.evictions + 1))
  {
    InitFacts(s.t1);
  }

  lemma MakeRoomKeepsShape(s: Arc, pick: Key)
    requires Shape(s)
    ensures Shape(MakeRoom(s, pick))
    ensures forall j :: MakeRoom(s, pick).Known(j) ==> s.Known(j)
  {
    if |s.t1| + |s.b1| >= s.cap {
      if |s.t1| < s.cap {
        ReplaceKeepsShape(s.(b1 := Forget(s.b1, pick)), false);
      } else if s.t1 != [] {
        DropT1KeepsShape(s);
      }
    } else if s.Total() >= s.cap {
      ReplaceKeepsShape(if s.Total() == 2 * s.cap then s.(b2 := Forget(s.b2, pick)) else s, false);
    }
  }

  lemma AdmitKeepsShape(s: Arc, inB2: bool, k: Key, v: Bytes)
    requires Shape(s)
    ensures !s.Known(k) ==> Shape(Admit1(s, k, v))
    ensures k in (if inB2 then s.b2 else s.b1) ==> Shape(Admit2(s, inB2, k, v))
  {
  }

  lemma GhostHitKeepsShape(s: Arc, inB2: bool, k: Key, v: Bytes)
    requires Shape(s) && k in (if inB2 then s.b2 else s.b1)
    ensures Shape(Admit2(Replace(s, inB2), inB2, k, v))
  {
    ReplaceKeepsShape(s, inB2);
    AdmitKeepsShape(Replace(s, inB2), inB2, k, v);
  }

  lemma PutKeepsShape(s: Arc, k: Key, v: Bytes, pick: Key)
    requires Shape(s)
    ensures Shape(OnPut(s, k, v, pick))
  {
    if s.Resident(k) {
      PromoteKeepsShape(s, k);
    } else if k in s.b1 || k in s.b2 {
      GhostHitKeepsShape(s.(p := TargetFor(s, k)), k !in s.b1, k, v);
    } else {
      MakeRoomKeepsShape(s, pick);
      AdmitKeepsShape(MakeRoom(s, pick), false, k, v);
    }
  }

  lemma EraseKeepsShape(s: Arc, k: Key)
    requires Shape(s)
    ensures Shape(OnErase(s, k))
    ensures forall j :: OnErase(s, k).Known(j) <==> s.Known(j) && j != k
  {
    WithoutFacts(s.t1, k);
    WithoutFacts(s.t2, k);
  }

  lemma ResizeKeepsShape(s: Arc, c: nat)
    requires Shape(s)
    ensures Shape(OnResize(s, c))
  {
    CutFacts(s.t1, |OnResize(s, c).t1|);
    CutFacts(s.t2, |OnResize(s, c).t2|);
  }

  lemma {:induction false} HintKeepsShape(s: Arc, ks: seq<Key>)
    requires Shape(s)
    ensures Shape(OnHint(s, ks))
    ensures forall j :: OnHint(s, ks).Resident(j) <==> s.Resident(j)
    ensures OnHint(s, ks).Size() == s.Size() && |OnHint(s, ks).t1| <= |s.t1|
    ensures var r := OnHint(s, ks);
      r == s.(t1 := r.t1, t2 := r.t2)
    decreases |ks|
  {
    if ks != [] {
      PromoteKeepsShape(s, ks[0]);
      HintKeepsShape(Promote(s, ks[0]), ks[1..]);
    }
  }

  lemma StepKeepsShape(s: Arc, op: Op)
    requires Shape(s)
    ensures Shape(Step(s, op))
  {
    match op
    case Get(k) => PromoteKeepsShape(s, k);
    case Put(k, v, pick) => PutKeepsShape(s, k, v, pick);
    case Erase(k) => EraseKeepsShape(s, k);
    case Resize(c) => ResizeKeepsShape(s, c);
    case Clear =>
    case Hint(ks) => HintKeepsShape(s, ks);
  }

  /** In every reachable state, whatever the capacities along the way, the lists are disjoint. */
  lemma {:induction false} ReachableShape(c: nat, ops: seq<Op>)
    ensures Shape(Run(Empty(c), ops))
  {
    if ops != [] {
      ReachableShape(c, Init(ops));
      StepKeepsShape(Run(Empty(c), Init(ops)), Last(ops));
    }
  }

  // ------------------------------------------------------------------
  // Directory bounds: conditions A.1 to A.3 of the ARC paper.
  // ------------------------------------------------------------------

  ghost predicate Bounds(s: Arc) {
    && |s.t1| + |s.b1| <= s.cap
    && |s.t1| + |s.t2| <= s.cap
    && s.Total() <= 2 * s.cap
    && s.p <= s.cap
  }

  /** The capacity `c` has room for the target, for the ghosts, and for what the resize leaves
      resident. */
  predicate Fits(s: Arc, c: nat) {
    && s.p <= c
    && |s.t1| - Min(|s.t1|, Max(0, s.Size() - c)) + |s.b1| <= c
    && Min(s.Size(), c) + |s.b1| + |s.b2| <= 2 * c
  }

  /** The calls that keep the directory in bounds: resizes to capacities that fit, and puts into
      caches that have one. */
  predicate Keeps(s: Arc, op: Op) {
    (op.Resize? ==> Fits(s, op.capacity)) && (op.Put? ==> s.cap >= 1)
  }

  lemma TargetRange(s: Arc)
    ensures RaisedTarget(s) <= s.cap && LoweredTarget(s) <= s.p
  {
  }

  lemma ReplaceSizes(s: Arc, inB2: bool)
    requires Shape(s)
    ensures var r := Replace(s, inB2);
      && r.Total() == s.Total() && |r.t1| + |r.b1| == |s.t1| + |s.b1|
      && r.Size() == (if TakesT1(s, inB2) || s.t2 != [] then s.Size() - 1 else s.Size())
      && |r.t1| == (if TakesT1(s, inB2) then |s.t1| - 1 else |s.t1|)
      && s.b1 <= r.b1 && s.b2 <= r.b2
  {
    if s.t1 != [] { InitFacts(s.t1); }
    if s.t2 != [] { InitFacts(s.t2); }
  }

  lemma GhostHitKeepsBounds(s: Arc, inB2: bool, k: Key, v: Bytes)
    requires Shape(s) && Bounds(s)
    requires k in (if inB2 then s.b2 else s.b1)
    ensures Bounds(Admit2(Replace(s, inB2), inB2, k, v))
  {
    var r := Replace(s, inB2);
    ReplaceSizes(s, inB2);
    ReplaceKeepsShape(s, inB2);
    CardWithout(r.b1, k);
    CardWithout(r.b2, k);
  }

  lemma ForgetSize(b: set<Key>, pick: Key)
    ensures |Forget(b, pick)| == if b == {} then 0 else |b| - 1
    ensures Forget(b, pick) <= b
  {
    if b != {} {
      CardWithout(b, pick);
      CardWithout(b, AnyOf(b));
    }
  }

  lemma FreshBelowTargetKeepsBounds(s: Arc, k: Key, v: Bytes, pick: Key)
    requires Shape(s) && Bounds(s)
    requires |s.t1| + |s.b1| < s.cap <= s.Total()
    ensures Bounds(Admit1(MakeRoom(s, pick), k, v))
  {
    ForgetSize(s.b2, pick);
    ReplaceSizes(if s.Total() == 2 * s.cap then s.(b2 := Forget(s.b2, pick)) else s, false);
  }

  lemma FreshKeepsBounds(s: Arc, k: Key, v: Bytes, pick: Key)
    requires Shape(s) && Bounds(s) && s.cap >= 1
    ensures Bounds(Admit1(MakeRoom(s, pick), k, v))
  {
    if |s.t1| + |s.b1| >= s.cap {
      if |s.t1| < s.cap {
        ForgetSize(s.b1, pick);
        ReplaceSizes(s.(b1 := Forget(s.b1, pick)), false);
      }
    } else if s.Total() >= s.cap {
      FreshBelowTargetKeepsBounds(s, k, v, pick);
    }
  }

  lemma PutKeepsBounds(s: Arc, k: Key, v: Bytes, pick: Key)
    requires Shape(s) && Bounds(s) && s.cap >= 1
    ensures Bounds(OnPut(s, k, v, pick))
  {
    if s.Resident(k) {
      PromoteKeepsShape(s, k);
    } else if k in s.b1 || k in s.b2 {
      TargetRange(s);
      GhostHitKeepsBounds(s.(p := TargetFor(s, k)), k !in s.b1, k, v);
    } else {
      FreshKeepsBounds(s, k, v, pick);
    }
  }

  lemma NoRoomAtZero(s: Arc, k: Key, v: Bytes, pick: Key)
    requires Shape(s) && s.cap == 0
    ensures !Bounds(OnPut(s, k, v, pick))
  {
    PutAddsOnlyItsKey(s, k, v, pick);
    PutKeepsShape(s, k, v, pick);
  }

  lemma ResizeKeepsBoundsExactly(s: Arc, c: nat)
    ensures Bounds(OnResize(s, c)) <==> Fits(s, c)
  {
  }

  lemma PutKeepsBoundsExactly(s: Arc, k: Key, v: Bytes, pick: Key)
    requires Shape(s) && Bounds(s)
    ensures Bounds(OnPut(s, k, v, pick)) <==> s.cap >= 1
  {
    if s.cap == 0 {
      NoRoomAtZero(s, k, v, pick);
    } else {
      PutKeepsBounds(s, k, v, pick);
    }
  }

  /** Exactly which calls keep the directory in bounds, by what can be seen before the call. */
  lemma StepKeepsBounds(s: Arc, op: Op)
    requires Shape(s) && Bounds(s)
    ensures Bounds(Step(s, op)) <==> Keeps(s, op)
  {
    match op
    case Get(k) => PromoteKeepsShape(s, k);
    case Put(k, v, pick) => PutKeepsBoundsExactly(s, k, v, pick);
    case Erase(k) =>
      WithoutFacts(s.t1, k);
      WithoutFacts(s.t2, k);
    case Resize(c) => ResizeKeepsBoundsExactly(s, c);
    case Clear =>
    case Hint(ks) => HintKeepsShape(s, ks);
  }

  /** Only `Resize` moves the capacity. */
  lemma StepCapacity(s: Arc, op: Op)
    requires Shape(s)
    ensures Step(s, op).cap == if op.Resize? then op.capacity else s.cap
  {
    if op.Hint? {
      HintKeepsShape(s, op.keys);
    }
  }

  /** Every resize of the run fits, and no put comes at capacity 0. */
  ghost predicate AllKeep(s: Arc, ops: seq<Op>) {
    ops == [] || (AllKeep(s, Init(ops)) && Keeps(Run(s, Init(ops)), Last(ops)))
  }

  /** The directory is in bounds before and after every call of the run. */
  ghost predicate AlwaysInBounds(s: Arc, ops: seq<Op>) {
    Bounds(Run(s, ops)) && (ops == [] || AlwaysInBounds(s, Init(ops)))
  }

  /** Over every run at any capacities the lists are disjoint, and throughout it `t1` with its ghosts
      and the residents each fit the capacity, the directory fits twice the capacity, and the target
      stays in range, exactly if every resize finds that they fit and no put comes at capacity 0. */
  lemma {:induction false} DirectoryInvariant(c: nat, ops: seq<Op>)
    ensures Shape(Run(Empty(c), ops))
    ensures AlwaysInBounds(Empty(c), ops) <==> AllKeep(Empty(c), ops)
  {
    ReachableShape(c, ops);
    if ops != [] {
      DirectoryInvariant(c, Init(ops));
      if AlwaysInBounds(Empty(c), Init(ops)) {
        StepKeepsBounds(Run(Empty(c), Init(ops)), Last(ops));
      }
    }
  }

  /** The run never lowers the capacity. */
  ghost predicate Growing(s: Arc, ops: seq<Op>) {
    || ops == []
    || (Growing(s, Init(ops)) && (Last(ops).Resize? ==> Last(ops).capacity >= Run(s, Init(ops)).cap))
  }

  /** So they hold throughout every run that never shrinks a cache of capacity at least 1. */
  lemma {:induction false} GrowingKeepsBounds(c: nat, ops: seq<Op>)
    requires c >= 1 && Growing(Empty(c), ops)
    ensures AlwaysInBounds(Empty(c), ops) && Run(Empty(c), ops).cap >= c
  {
    if ops != [] {
      GrowingKeepsBounds(c, Init(ops));
      ReachableShape(c, Init(ops));
      StepKeepsBounds(Run(Empty(c), Init(ops)), Last(ops));
      StepCapacity(Run(Empty(c), Init(ops)), Last(ops));
    }
  }
}
