/** The residents of an ARC cache when its capacity moves both ways: `resize` trims neither the
    ghosts nor the target, so a shrink can cost the cache its bounds. `ArcDirectory` is about the
    ghosts. */
module ArcResizing {
  import opened Sequences
  import opened CacheTypes
  import opened ArcSpec
  import opened ArcInvariants
  import opened ArcAccounting

  ghost predicate Weak(s: Arc) {
    && s.cap >= 1 && |s.t1| <= s.cap && s.Size() <= s.cap + 1
  }

  lemma FreshKeepsT1(s: Arc, k: Key, v: Bytes, pick: Key)
    requires Weak(s)
    ensures |Admit1(MakeRoom(s, pick), k, v).t1| <= s.cap
  {
  }

  lemma PutKeepsSizeWeak(s: Arc, k: Key, v: Bytes, pick: Key)
    requires Shape(s) && Weak(s) && !s.Resident(k)
    ensures OnPut(s, k, v, pick).Size() <= s.cap + 1
  {
    PutAccounting(s, k, v, pick);
  }

  lemma PutKeepsWeak(s: Arc, k: Key, v: Bytes, pick: Key)
    requires Shape(s) && Weak(s)
    ensures Weak(OnPut(s, k, v, pick))
  {
    if s.Resident(k) {
      PromoteKeepsShape(s, k);
    } else {
      PutKeepsSizeWeak(s, k, v, pick);
      if !s.Known(k) {
        FreshKeepsT1(s, k, v, pick);
      }
    }
  }

  lemma ResizeTrims(s: Arc, c: nat)
    requires Shape(s)
    ensures var r := OnResize(s, c);
      && r.cap == c && r.Size() <= c
      && r.t1 <= s.t1 && r.t2 <= s.t2 && (r.t1 != [] ==> r.t2 == s.t2)
      && (r.Size() < s.Size() ==> r.Size() == c)
      && r.evictions - s.evictions == s.Size() - r.Size()
      && (forall k :: k in r.val <==> r.Resident(k))
      && (forall k :: k in r.val ==> k in s.val && r.val[k] == s.val[k])
      && r.b1 == s.b1 && r.b2 == s.b2 && r.p == s.p
  {
    ResizeKeepsShape(s, c);
  }

  lemma StepKeepsWeak(s: Arc, op: Op)
    requires Shape(s) && (s.cap >= 1 ==> Weak(s))
    ensures Step(s, op).cap >= 1 ==> Weak(Step(s, op))
  {
    StepCapacity(s, op);
    match op
    case Get(k) => PromoteKeepsShape(s, k);
    case Put(k, v, pick) =>
      if s.cap >= 1 {
        PutKeepsWeak(s, k, v, pick);
      }
    case Erase(k) =>
      WithoutFacts(s.t1, k);
      WithoutFacts(s.t2, k);
    case Resize(c) => ResizeTrims(s, c);
    case Clear =>
    case Hint(ks) => HintKeepsShape(s, ks);
  }

  /** Whatever resizing happens, to 0 and back included, a cache that has a capacity overshoots it by
      one at most. */
  lemma {:induction false} BoundsUnderResizing(c: nat, ops: seq<Op>)
    ensures var s := Run(Empty(c), ops);
      Shape(s) && (s.cap >= 1 ==> Weak(s))
  {
    if ops != [] {
      BoundsUnderResizing(c, Init(ops));
      StepKeepsShape(Run(Empty(c), Init(ops)), Last(ops));
      StepKeepsWeak(Run(Empty(c), Init(ops)), Last(ops));
    }
  }

  /** From where a put takes a cache that holds what it may: `t1` alone fills the cache, the key is
      a ghost, and the adapted target lets `replace` take nothing from `t1`. */
  predicate PushesOver(s: Arc, k: Key) {
    && !s.Resident(k) && s.t2 == [] && |s.t1| == s.cap
    && ((k in s.b1 && RaisedTarget(s) == s.cap) || (k in s.b2 && LoweredTarget(s) > s.cap))
  }

  /** Exactly when a put leaves more residents than the capacity: there were too many already, or
      the put is one that pushes the cache over. */
  lemma PutOverflows(s: Arc, k: Key, v: Bytes, pick: Key)
    requires Shape(s) && Weak(s)
    ensures OnPut(s, k, v, pick).Size() > s.cap <==> s.Size() > s.cap || PushesOver(s, k)
  {
    if s.Resident(k) {
      PromoteKeepsShape(s, k);
    } else {
      PutAccounting(s, k, v, pick);
      TargetRange(s);
    }
  }

  /** Lookups, puts and hints never bring an overflowing cache back: it holds one entry too many
      until one is erased or the cache is resized or cleared. */
  lemma {:induction false} OverflowPersists(s: Arc, ops: seq<Op>)
    requires Shape(s) && Weak(s) && s.Size() == s.cap + 1
    requires forall i :: 0 <= i < |ops| ==> ops[i].Get? || ops[i].Put? || ops[i].Hint?
    ensures var r := Run(s, ops);
      Shape(r) && Weak(r) && r.cap == s.cap && r.Size() == r.cap + 1
  {
    if ops != [] {
      var q := Run(s, Init(ops));
      OverflowPersists(s, Init(ops));
      StepKeepsShape(q, Last(ops));
      StepKeepsWeak(q, Last(ops));
      StepCapacity(q, Last(ops));
      match Last(ops)
      case Get(k) => PromoteKeepsShape(q, k);
      case Put(k, v, pick) => PutOverflows(q, k, v, pick);
      case Hint(ks) => HintKeepsShape(q, ks);
    }
  }

  lemma OneKeyInT2(x: Key, v: Bytes)
    ensures Run(Empty(2), [Put(x, v, x)] + [Get(x)]) == Arc([], [x], {}, {}, map[x := v], 2, 0, 1, 0, 0)
  {
    assert Run(Empty(2), [Put(x, v, x)]) == Step(Empty(2), Put(x, v, x));
    RunSnoc(Empty(2), [Put(x, v, x)], Get(x));
  }

  /** One key in `t1`, one in `t2` and one ghost in `b1`, at capacity 2. */
  lemma OneKeyInEachList(x: Key, y: Key, z: Key, v: Bytes)
    requires x != y && y != z && z != x
    ensures Run(Empty(2), [Put(x, v, x)] + [Get(x)] + [Put(y, v, x)] + [Put(z, v, x)])
            == Arc([z], [x], {y}, {}, map[x := v, z := v], 2, 0, 1, 0, 1)
  {
    var o := [Put(x, v, x)] + [Get(x)];
    var s2 := Arc([], [x], {}, {}, map[x := v], 2, 0, 1, 0, 0);
    var s3 := Arc([y], [x], {}, {}, map[x := v, y := v], 2, 0, 1, 0, 0);
    var s4 := Arc([z], [x], {y}, {}, map[x := v, z := v], 2, 0, 1, 0, 1);
    assert Step(s2, Put(y, v, x)) == s3;
    assert Step(s3, Put(z, v, x)) == s4;
    OneKeyInT2(x, v);
    RunSnoc(Empty(2), o, Put(y, v, x));
    RunSnoc(Empty(2), o + [Put(y, v, x)], Put(z, v, x));
  }

  /** With the key of `t2` erased and a slot taken away, the ghost comes back beside a full `t1`. */
  lemma OneTooMany(x: Key, y: Key, z: Key, v: Bytes)
    requires x != y && y != z && z != x
    ensures var s := Arc([z], [x], {y}, {}, map[x := v, z := v], 2, 0, 1, 0, 1);
      Run(s, [Erase(x)] + [Resize(1)] + [Put(y, v, x)]) == Arc([z], [y], {}, {}, map[z := v, y := v], 1, 1, 1, 0, 2)
  {
    var s := Arc([z], [x], {y}, {}, map[x := v, z := v], 2, 0, 1, 0, 1);
    assert Step(s, Erase(x)) == Arc([z], [], {y}, {}, map[z := v], 2, 0, 1, 0, 1);
    assert Run(s, [Erase(x)]) == Step(s, Erase(x));
    RunSnoc(s, [Erase(x)], Resize(1));
    ResizeDone(Arc([z], [], {y}, {}, map[z := v], 1, 0, 1, 0, 1));
    RunSnoc(s, [Erase(x)] + [Resize(1)], Put(y, v, x));
    assert {y} - {y} == {};
  }

  /** Such a state is reachable: a shrink to capacity 1 and one more put leave two residents. */
  lemma OverflowIsReachable(x: Key, y: Key, z: Key, v: Bytes)
    requires x != y && y != z && z != x
    ensures var s := Run(Empty(2), [Put(x, v, x)] + [Get(x)] + [Put(y, v, x)] + [Put(z, v, x)]
                                   + ([Erase(x)] + [Resize(1)] + [Put(y, v, x)]));
      s.cap == 1 && s.t1 == [z] && s.t2 == [y]
  {
    var o := [Put(x, v, x)] + [Get(x)] + [Put(y, v, x)] + [Put(z, v, x)];
    OneKeyInEachList(x, y, z, v);
    OneTooMany(x, y, z, v);
    RunConcat(Empty(2), o, [Erase(x)] + [Resize(1)] + [Put(y, v, x)]);
  }
}
