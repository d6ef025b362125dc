/** The directory of an ARC cache, ghosts included, after a shrink. The code forgets a ghost of `b2`
    only when the directory holds exactly twice the capacity, so once there are more they are never
    forgotten again. */
module ArcDirectory {
  import opened Sequences
  import opened CacheTypes
  import opened ArcSpec
  import opened ArcInvariants
  import opened ArcResizing
  import opened ArcScan

  /** `t1` and its ghosts. */
  function Recents(s: Arc): nat { |s.t1| + |s.b1| }

  /** The put of `k` adds a key to the directory and forgets none. */
  predicate Enlarges(s: Arc, k: Key) {
    && !s.Known(k)
    && if Recents(s) >= s.cap then s.cap == 0 && s.t1 == []
       else s.Total() != 2 * s.cap || s.b2 == {}
  }

  /** A new key adds to `t1` and its ghosts while they have room; a key that is among them leaves. */
  function RecentsGain(s: Arc, k: Key): int {
    if !s.Known(k) then (if Recents(s) < s.cap then 1 else 0)
    else if k in s.t1 || k in s.b1 then -1
    else 0
  }

  lemma ForgetB1Directory(s: Arc, pick: Key)
    requires Shape(s) && Recents(s) >= s.cap
    ensures var r := MakeRoom(s, pick);
      && r.Total() == s.Total() - (if s.cap == 0 && s.t1 == [] then 0 else 1)
      && (s.cap >= 1 ==> Recents(r) == Recents(s) - 1)
  {
    if |s.t1| < s.cap {
      ForgetSize(s.b1, pick);
      ReplaceSizes(s.(b1 := Forget(s.b1, pick)), false);
    }
  }

  lemma ForgetB2Directory(s: Arc, pick: Key)
    requires Shape(s) && Recents(s) < s.cap
    ensures var r := MakeRoom(s, pick);
      && r.Total() == s.Total() - (if s.Total() != 2 * s.cap || s.b2 == {} then 0 else 1)
      && Recents(r) == Recents(s)
  {
    ForgetSize(s.b2, pick);
    ReplaceSizes(if s.Total() == 2 * s.cap then s.(b2 := Forget(s.b2, pick)) else s, false);
  }

  lemma FreshDirectory(s: Arc, k: Key, v: Bytes, pick: Key)
    requires Shape(s) && !s.Known(k)
    ensures var r := OnPut(s, k, v, pick);
      && r.Total() == s.Total() + (if Enlarges(s, k) then 1 else 0)
      && (s.cap >= 1 ==> Recents(r) == Recents(s) + if Recents(s) < s.cap then 1 else 0)
  {
    if Recents(s) >= s.cap {
      ForgetB1Directory(s, pick);
    } else {
      ForgetB2Directory(s, pick);
    }
  }

  lemma HitDirectory(s: Arc, k: Key, v: Bytes, pick: Key)
    requires Shape(s) && !s.Resident(k) && (k in s.b1 || k in s.b2)
    ensures var r := OnPut(s, k, v, pick);
      r.Total() == s.Total() && Recents(r) == Recents(s) - if k in s.b1 then 1 else 0
  {
    var q := s.(p := TargetFor(s, k));
    ReplaceSizes(q, k !in s.b1);
    CardWithout(Replace(q, k !in s.b1).b1, k);
    CardWithout(Replace(q, k !in s.b1).b2, k);
  }

  lemma PromoteDirectory(s: Arc, k: Key)
    requires Shape(s)
    ensures Promote(s, k).Total() == s.Total()
    ensures Recents(Promote(s, k)) == Recents(s) - if k in s.t1 then 1 else 0
    ensures forall j :: Promote(s, k).Known(j) <==> s.Known(j)
  {
    WithoutFacts(s.t1, k);
    WithoutFacts(s.t2, k);
  }

  /** Exactly what a put does to the size of the directory and of `t1` with its ghosts. */
  lemma PutDirectory(s: Arc, k: Key, v: Bytes, pick: Key)
    requires Shape(s)
    ensures var r := OnPut(s, k, v, pick);
      && r.Total() == s.Total() + (if Enlarges(s, k) then 1 else 0)
      && (s.cap >= 1 ==> Recents(r) == Recents(s) + RecentsGain(s, k))
  {
    if s.Resident(k) {
      PromoteDirectory(s, k);
    } else if k in s.b1 || k in s.b2 {
      HitDirectory(s, k, v, pick);
    } else {
      FreshDirectory(s, k, v, pick);
    }
  }

  /** Exactly when a put leaves more keys in the directory than twice the capacity: there were more
      already, or there were just as many, the key is new, and there is no ghost that the code would
      forget. `t1` with its ghosts, and the target, pass the capacity only if they had passed it. */
  lemma PutOverflowsDirectory(s: Arc, k: Key, v: Bytes, pick: Key)
    requires Shape(s) && s.cap >= 1
    ensures var r := OnPut(s, k, v, pick);
      && (r.Total() > 2 * s.cap <==>
            || s.Total() > 2 * s.cap
            || (s.Total() == 2 * s.cap && !s.Known(k) && Recents(s) < s.cap && s.b2 == {}))
      && (Recents(r) > s.cap <==>
            Recents(s) > s.cap + if k in s.t1 || k in s.b1 then 1 else 0)
      && (r.p > s.cap ==> s.p > s.cap)
  {
    PutDirectory(s, k, v, pick);
    TargetRange(s);
  }

  /** No run of lookups, puts and hints ever makes the directory smaller, at any capacity; so neither
      does it bring one that is too large back. */
  lemma {:induction false} DirectoryNeverShrinks(s: Arc, ops: seq<Op>)
    requires Shape(s) && forall i :: 0 <= i < |ops| ==> ops[i].Get? || ops[i].Put? || ops[i].Hint?
    ensures var r := Run(s, ops);
      Shape(r) && r.cap == s.cap && r.Total() >= s.Total()
  {
    if ops != [] {
      var q := Run(s, Init(ops));
      DirectoryNeverShrinks(s, Init(ops));
      StepKeepsShape(q, Last(ops));
      StepCapacity(q, Last(ops));
      match Last(ops)
      case Get(k) => PromoteDirectory(q, k);
      case Put(k, v, pick) => PutDirectory(q, k, v, pick);
      case Hint(ks) => HintKeepsShape(q, ks);
    }
  }

  lemma PutForgetsNoB2(s: Arc, k: Key, v: Bytes, pick: Key)
    requires Shape(s) && s.Total() > 2 * s.cap
    ensures forall j :: j in s.b2 && j != k ==> j in OnPut(s, k, v, pick).b2
  {
  }

  /** Once the directory is too large a ghost of `b2` is not forgotten, however long it is not put. */
  lemma {:induction false} B2GhostsStay(s: Arc, ops: seq<Op>, j: Key)
    requires Shape(s) && s.Total() > 2 * s.cap && j in s.b2
    requires forall i :: 0 <= i < |ops| ==>
      ops[i].Get? || ops[i].Hint? || (ops[i].Put? && ops[i].key != j)
    ensures j in Run(s, ops).b2
  {
    if ops != [] {
      var q := Run(s, Init(ops));
      B2GhostsStay(s, Init(ops), j);
      DirectoryNeverShrinks(s, Init(ops));
      match Last(ops)
      case Get(k) =>
      case Put(k, v, pick) => PutForgetsNoB2(q, k, v, pick);
      case Hint(ks) => HintKeepsShape(q, ks);
    }
  }

  /** Every shrink of a full cache whose directory is full, by one slot already, leaves more keys in
      the directory than twice the capacity. */
  lemma ShrinkOverflowsDirectory(s: Arc, c: nat)
    requires s.Size() == s.cap && s.Total() == 2 * s.cap && c < s.cap
    ensures OnResize(s, c).Total() == s.cap + c > 2 * c
  {
  }

  // ------------------------------------------------------------------
  // Growth without bound.
  // ------------------------------------------------------------------

  /** Each put followed by a lookup of its key. */
  function EachReadOnce(puts: seq<Op>): seq<Op>
    requires forall i :: 0 <= i < |puts| ==> puts[i].Put?
  {
    if puts == [] then []
    else EachReadOnce(Init(puts)) + [Last(puts)] + [Get(Last(puts).key)]
  }

  lemma PutFresh(s: Arc, k: Key, v: Bytes, pick: Key)
    requires Shape(s) && s.cap >= 1 && s.Total() > 2 * s.cap && !s.Known(k)
    ensures var q := OnPut(s, k, v, pick);
      && Shape(q) && q.cap == s.cap && k in q.t1
      && q.Total() == s.Total() + (if Recents(s) < s.cap then 1 else 0)
      && Recents(q) == Recents(s) + (if Recents(s) < s.cap then 1 else 0)
      && (forall j :: q.Known(j) ==> s.Known(j) || j == k)
      && (Weak(s) ==> Weak(q))
  {
    FreshDirectory(s, k, v, pick);
    FreshPutFrame(s, k, v, pick);
    PutKeepsShape(s, k, v, pick);
    if Weak(s) {
      PutKeepsWeak(s, k, v, pick);
    }
  }

  lemma ReadBack(q: Arc, k: Key)
    requires Shape(q) && k in q.t1
    ensures var r := OnGet(q, k);
      && Shape(r) && r.cap == q.cap && r.Total() == q.Total() && Recents(r) == Recents(q) - 1
      && (forall j :: r.Known(j) <==> q.Known(j))
      && (Weak(q) ==> Weak(r))
  {
    PromoteDirectory(q, k);
    PromoteKeepsShape(q, k);
  }

  lemma PutAndRead(s: Arc, k: Key, v: Bytes, pick: Key)
    requires Shape(s) && s.cap >= 1 && s.Total() > 2 * s.cap && !s.Known(k)
    ensures var r := OnGet(OnPut(s, k, v, pick), k);
      && Shape(r) && r.cap == s.cap
      && r.Total() == s.Total() + (if Recents(s) < s.cap then 1 else 0)
      && Recents(r) == Recents(s) - (if Recents(s) < s.cap then 0 else 1)
      && (forall j :: r.Known(j) ==> s.Known(j) || j == k)
      && (Weak(s) ==> Weak(r))
  {
    PutFresh(s, k, v, pick);
    ReadBack(OnPut(s, k, v, pick), k);
  }

  lemma ReadOnceMore(s: Arc, puts: seq<Op>)
    requires puts != [] && forall i :: 0 <= i < |puts| ==> puts[i].Put?
    ensures var o := Last(puts);
      Run(s, EachReadOnce(puts))
        == OnGet(OnPut(Run(s, EachReadOnce(Init(puts))), o.key, o.value, o.pick), o.key)
  {
    var ops, o := EachReadOnce(Init(puts)), Last(puts);
    RunSnoc(s, ops, o);
    RunSnoc(s, ops + [o], Get(o.key));
  }

  /** Once the directory holds more than twice the capacity, putting and reading new keys adds one
      key to it for each of them, as soon as the reads have made room next to `t1`. The residents
      stay within the capacity and one, so what grows is the ghosts. */
  lemma {:induction false} GhostsGrow(s: Arc, puts: seq<Op>)
    requires Shape(s) && Weak(s) && s.Total() > 2 * s.cap && FreshScan(s, puts)
    ensures var r := Run(s, EachReadOnce(puts));
      var lead := Max(0, Recents(s) - s.cap + 1);
      && Shape(r) && Weak(r) && r.cap == s.cap
      && r.Total() == s.Total() + Max(0, |puts| - lead)
      && Recents(r) == Recents(s) - Min(|puts|, lead)
      && |r.b1| + |r.b2| >= r.Total() - s.cap - 1
      && forall j :: r.Known(j) ==> s.Known(j) || exists i :: 0 <= i < |puts| && puts[i].key == j
  {
    if puts != [] {
      var q, o := Run(s, EachReadOnce(Init(puts))), Last(puts);
      GhostsGrow(s, Init(puts));
      ReadOnceMore(s, puts);
      PutAndRead(q, o.key, o.value, o.pick);
    }
  }

  // ------------------------------------------------------------------
  // A run that gets there.
  // ------------------------------------------------------------------

  /** Two keys in `t1` and `t2` and one ghost of each kind, at capacity 2. */
  lemma FullDirectory(w: Key, x: Key, y: Key, z: Key, v: Bytes)
    requires Distinct([w, x, y, z])
    ensures var s := Arc([z], [x], {y}, {}, map[x := v, z := v], 2, 0, 1, 0, 1);
      Run(s, [Get(z)] + [Put(w, v, w)]) == Arc([w], [z], {y}, {x}, map[w := v, z := v], 2, 0, 2, 0, 2)
  {
    var s := Arc([z], [x], {y}, {}, map[x := v, z := v], 2, 0, 1, 0, 1);
    var t := Arc([], [z, x], {y}, {}, map[x := v, z := v], 2, 0, 2, 0, 1);
    assert [w, x, y, z][0] == w && [w, x, y, z][1] == x && [w, x, y, z][2] == y && [w, x, y, z][3] == z;
    assert Step(s, Get(z)) == t;
    assert Run(s, [Get(z)]) == t;
    RunSnoc(s, [Get(z)], Put(w, v, w));
    assert Step(t, Put(w, v, w)) == Arc([w], [z], {y}, {x}, map[w := v, z := v], 2, 0, 2, 0, 2);
  }

  function Overfull(x: Key, y: Key, z: Key, v: Bytes): Arc {
    Arc([], [z], {y}, {x}, map[z := v], 1, 0, 2, 0, 3)
  }

  /** Fills the directory of a cache of capacity 2, and takes a slot away. */
  function Overfilling(w: Key, x: Key, y: Key, z: Key, v: Bytes): seq<Op> {
    [Put(x, v, x)] + [Get(x)] + [Put(y, v, x)] + [Put(z, v, x)] + ([Get(z)] + [Put(w, v, w)]) + [Resize(1)]
  }

  lemma ShrinkFull(w: Key, x: Key, y: Key, z: Key, v: Bytes)
    requires w != z
    ensures Step(Arc([w], [z], {y}, {x}, map[w := v, z := v], 2, 0, 2, 0, 2), Resize(1)) == Overfull(x, y, z, v)
  {
    assert map[w := v, z := v] - {w} == map[z := v];
  }

  lemma OverfullIsReachable(w: Key, x: Key, y: Key, z: Key, v: Bytes)
    requires Distinct([w, x, y, z])
    ensures Run(Empty(2), Overfilling(w, x, y, z, v)) == Overfull(x, y, z, v)
  {
    var o := [Put(x, v, x)] + [Get(x)] + [Put(y, v, x)] + [Put(z, v, x)];
    var m := [Get(z)] + [Put(w, v, w)];
    assert [w, x, y, z][0] == w && [w, x, y, z][1] == x && [w, x, y, z][2] == y && [w, x, y, z][3] == z;
    OneKeyInEachList(x, y, z, v);
    FullDirectory(w, x, y, z, v);
    RunConcat(Empty(2), o, m);
    RunSnoc(Empty(2), o + m, Resize(1));
    ShrinkFull(w, x, y, z, v);
  }

  lemma OverfullFacts(x: Key, y: Key, z: Key, v: Bytes)
    requires x != y && y != z && z != x
    ensures var s := Overfull(x, y, z, v);
      Shape(s) && Weak(s) && s.cap == 1 && s.Total() == 3 && Recents(s) == 1
  {
  }

  lemma OverfullGrows(x: Key, y: Key, z: Key, v: Bytes, puts: seq<Op>)
    requires x != y && y != z && z != x && FreshScan(Overfull(x, y, z, v), puts)
    ensures var r := Run(Overfull(x, y, z, v), EachReadOnce(puts));
      r.cap == 1 && r.Total() == 3 + Max(0, |puts| - 1) && r.Size() <= 2
  {
    OverfullFacts(x, y, z, v);
    GhostsGrow(Overfull(x, y, z, v), puts);
  }

  /** So a run at capacities of 1 and 2 fills the directory with any number of keys: three after the
      shrink, and one more for each new key after the first that is put and read. */
  lemma DirectoryIsUnbounded(w: Key, x: Key, y: Key, z: Key, v: Bytes, puts: seq<Op>)
    requires Distinct([w, x, y, z]) && FreshScan(Overfull(x, y, z, v), puts)
    ensures var s := Run(Empty(2), Overfilling(w, x, y, z, v) + EachReadOnce(puts));
      s.cap == 1 && s.Total() == 3 + Max(0, |puts| - 1) && s.Size() <= 2
  {
    assert [w, x, y, z][1] == x && [w, x, y, z][2] == y && [w, x, y, z][3] == z;
    OverfullGrows(x, y, z, v, puts);
    OverfullIsReachable(w, x, y, z, v);
    RunConcat(Empty(2), Overfilling(w, x, y, z, v), EachReadOnce(puts));
  }
}
