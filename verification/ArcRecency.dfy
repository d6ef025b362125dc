/** The recency order of an ARC cache, against a clock that stamps every touch. */
module ArcRecency {
  import opened Sequences
  import opened CacheTypes
  import opened ArcSpec
  import opened ArcInvariants

  type Stamps = map<Key, nat>

  /** `born` is when a key last became resident, `seen` when it was last touched. */
  datatype Clocked = Clocked(s: Arc, now: nat, born: Stamps, seen: Stamps)

  function At(m: Stamps, k: Key): nat {
    if k in m then m[k] else 0
  }

  function Touch(c: Clocked, k: Key): Clocked {
    if c.s.Resident(k) then c.(s := Promote(c.s, k), now := c.now + 1, seen := c.seen[k := c.now]) else c
  }

  function TouchAll(c: Clocked, ks: seq<Key>): Clocked
    decreases |ks|
  {
    if ks == [] then c else TouchAll(Touch(c, ks[0]), ks[1..])
  }

  ghost function ClockStep(c: Clocked, op: Op): Clocked {
    match op
    case Get(k) => Touch(c, k).(s := OnGet(c.s, k))
    case Put(k, v, pick) =>
      Clocked(OnPut(c.s, k, v, pick), c.now + 1,
              if c.s.Resident(k) then c.born else c.born[k := c.now], c.seen[k := c.now])
    case Hint(ks) => TouchAll(c, ks)
    case _ => c.(s := Step(c.s, op))
  }

  ghost function ClockRun(cap: nat, ops: seq<Op>): Clocked {
    if ops == [] then Clocked(Empty(cap), 0, map[], map[]) else ClockStep(ClockRun(cap, Init(ops)), Last(ops))
  }

  /** `l` is strictly ordered, latest stamp first, and the ghosts `b` are older than all of it. */
  ghost predicate Ordered(l: seq<Key>, b: set<Key>, m: Stamps, now: nat) {
    && (forall i, j :: 0 <= i < j < |l| ==> At(m, l[i]) > At(m, l[j]))
    && (forall k, j :: k in b && 0 <= j < |l| ==> At(m, k) < At(m, l[j]))
    && (forall k :: k in l || k in b ==> At(m, k) < now)
  }

  ghost predicate Untouched(l: seq<Key>, born: Stamps, seen: Stamps) {
    forall k :: k in l ==> At(born, k) == At(seen, k)
  }

  /** `t1` is ordered by insertion and untouched since, `t2` is ordered by last touch, and each
      ghost is older than everything in the list it fell out of. */
  ghost predicate Chronological(c: Clocked) {
    && Ordered(c.s.t1, c.s.b1, c.seen, c.now) && Untouched(c.s.t1, c.born, c.seen)
    && Ordered(c.s.t2, c.s.b2, c.seen, c.now)
  }

  lemma OrderPush(l: seq<Key>, b: set<Key>, m: Stamps, now: nat, k: Key)
    requires Ordered(l, b, m, now) && k !in l && k !in b
    ensures Ordered([k] + l, b, m[k := now], now + 1)
  {
    assert forall j :: 0 < j < |[k] + l| ==> ([k] + l)[j] == l[j - 1];
  }

  lemma OrderElsewhere(l: seq<Key>, b: set<Key>, m: Stamps, now: nat, k: Key)
    requires Ordered(l, b, m, now) && k !in l && k !in b
    ensures Ordered(l, b, m[k := now], now + 1)
  {
  }

  lemma OrderFewerGhosts(l: seq<Key>, b: set<Key>, b': set<Key>, m: Stamps, now: nat)
    requires Ordered(l, b, m, now) && b' <= b
    ensures Ordered(l, b', m, now)
  {
  }

  lemma OrderRetire(l: seq<Key>, b: set<Key>, m: Stamps, now: nat)
    requires Ordered(l, b, m, now) && l != []
    ensures Ordered(Init(l), b + {Last(l)}, m, now)
  {
  }

  lemma OrderTake(l: seq<Key>, b: set<Key>, m: Stamps, now: nat, n: nat)
    requires Ordered(l, b, m, now) && n <= |l|
    ensures Ordered(l[..n], b, m, now)
  {
  }

  lemma OrderWithout(l: seq<Key>, b: set<Key>, m: Stamps, now: nat, k: Key)
    requires Ordered(l, b, m, now) && Distinct(l)
    ensures Ordered(Without(l, k), b, m, now)
  {
    if k in l {
      var i := WithoutIndex(l, k);
    } else {
      WithoutAbsent(l, k);
    }
  }

  lemma OrderLeave(l: seq<Key>, b: set<Key>, m: Stamps, now: nat, k: Key)
    requires Ordered(l, b, m, now) && Distinct(l) && k !in b
    ensures Ordered(Without(l, k), b, m[k := now], now + 1)
  {
    OrderWithout(l, b, m, now, k);
    WithoutFacts(l, k);
    OrderElsewhere(Without(l, k), b, m, now, k);
  }

  lemma OrderToFront(l: seq<Key>, b: set<Key>, m: Stamps, now: nat, k: Key)
    requires Ordered(l, b, m, now) && Distinct(l) && k !in b
    ensures Ordered(ToFront(l, k), b, m[k := now], now + 1)
  {
    OrderWithout(l, b, m, now, k);
    WithoutFacts(l, k);
    OrderPush(Without(l, k), b, m, now, k);
  }

  lemma TouchKeepsUntouched(c: Clocked, k: Key)
    requires Distinct(c.s.t1) && Untouched(c.s.t1, c.born, c.seen)
    ensures Untouched(Touch(c, k).s.t1, c.born, Touch(c, k).seen)
  {
    WithoutFacts(c.s.t1, k);
  }

  lemma TouchKeepsOrder(c: Clocked, k: Key)
    requires Shape(c.s) && Chronological(c)
    ensures Chronological(Touch(c, k))
  {
    TouchKeepsUntouched(c, k);
    if k in c.s.t1 {
      OrderLeave(c.s.t1, c.s.b1, c.seen, c.now, k);
      OrderPush(c.s.t2, c.s.b2, c.seen, c.now, k);
    } else if k in c.s.t2 {
      OrderElsewhere(c.s.t1, c.s.b1, c.seen, c.now, k);
      OrderToFront(c.s.t2, c.s.b2, c.seen, c.now, k);
    }
  }

  lemma ReplaceKeepsOrder(c: Clocked, inB2: bool)
    requires Chronological(c)
    ensures Chronological(c.(s := Replace(c.s, inB2)))
  {
    if c.s.t1 != [] { OrderRetire(c.s.t1, c.s.b1, c.seen, c.now); }
    if c.s.t2 != [] { OrderRetire(c.s.t2, c.s.b2, c.seen, c.now); }
  }

  lemma MakeRoomKeepsOrder(c: Clocked, pick: Key)
    requires Chronological(c)
    ensures Chronological(c.(s := MakeRoom(c.s, pick)))
  {
    var s := c.s;
    if |s.t1| + |s.b1| >= s.cap {
      if |s.t1| < s.cap {
        OrderFewerGhosts(s.t1, s.b1, Forget(s.b1, pick), c.seen, c.now);
        ReplaceKeepsOrder(c.(s := s.(b1 := Forget(s.b1, pick))), false);
      } else if s.t1 != [] {
        OrderTake(s.t1, s.b1, c.seen, c.now, |s.t1| - 1);
      }
    } else if s.Total() >= s.cap {
      OrderFewerGhosts(s.t2, s.b2, Forget(s.b2, pick), c.seen, c.now);
      ReplaceKeepsOrder(
        c.(s := if s.Total() == 2 * s.cap then s.(b2 := Forget(s.b2, pick)) else s), false);
    }
  }

  function Admitted(c: Clocked, s: Arc, k: Key): Clocked {
    Clocked(s, c.now + 1, c.born[k := c.now], c.seen[k := c.now])
  }

  /** A key that is not resident enters the list it is pushed on with the latest stamp of all. */
  lemma Admit1KeepsOrder(c: Clocked, k: Key, v: Bytes)
    requires Chronological(c) && !c.s.Known(k)
    ensures Chronological(Admitted(c, Admit1(c.s, k, v), k))
  {
    OrderPush(c.s.t1, c.s.b1, c.seen, c.now, k);
    OrderElsewhere(c.s.t2, c.s.b2, c.seen, c.now, k);
  }

  lemma Admit2KeepsOrder(c: Clocked, inB2: bool, k: Key, v: Bytes)
    requires Shape(c.s) && Chronological(c) && k in (if inB2 then c.s.b2 else c.s.b1)
    ensures Chronological(Admitted(c, Admit2(c.s, inB2, k, v), k))
  {
    var r := Admit2(c.s, inB2, k, v);
    OrderFewerGhosts(c.s.t1, c.s.b1, r.b1, c.seen, c.now);
    OrderFewerGhosts(c.s.t2, c.s.b2, r.b2, c.seen, c.now);
    OrderElsewhere(c.s.t1, r.b1, c.seen, c.now, k);
    OrderPush(c.s.t2, r.b2, c.seen, c.now, k);
  }

  lemma GhostHitKeepsOrder(c: Clocked, inB2: bool, k: Key, v: Bytes)
    requires Shape(c.s) && Chronological(c) && k in (if inB2 then c.s.b2 else c.s.b1)
    ensures Chronological(Admitted(c, Admit2(Replace(c.s, inB2), inB2, k, v), k))
  {
    var r := c.(s := Replace(c.s, inB2));
    assert Shape(r.s) && Chronological(r) && k in (if inB2 then r.s.b2 else r.s.b1) by {
      ReplaceKeepsOrder(c, inB2);
      ReplaceKeepsShape(c.s, inB2);
    }
    Admit2KeepsOrder(r, inB2, k, v);
  }

  lemma FreshKeepsOrder(c: Clocked, k: Key, v: Bytes, pick: Key)
    requires Shape(c.s) && Chronological(c) && !c.s.Known(k)
    ensures Chronological(Admitted(c, Admit1(MakeRoom(c.s, pick), k, v), k))
  {
    MakeRoomKeepsOrder(c, pick);
    MakeRoomKeepsShape(c.s, pick);
    Admit1KeepsOrder(c.(s := MakeRoom(c.s, pick)), k, v);
  }

  lemma OverwriteKeepsOrder(c: Clocked, k: Key, v: Bytes, pick: Key)
    requires Shape(c.s) && Chronological(c) && c.s.Resident(k)
    ensures Chronological(ClockStep(c, Put(k, v, pick)))
  {
    TouchKeepsOrder(c, k);
    var t := Touch(c, k);
    assert ClockStep(c, Put(k, v, pick)) == t.(s := t.s.(val := c.s.val[k := v]));
  }

  lemma SameListsSameOrder(c: Clocked, q: Arc)
    requires Shape(c.s) && Chronological(c) && q == c.s.(p := q.p)
    ensures Shape(q) && Chronological(c.(s := q))
  {
  }

  lemma GhostPutKeepsOrder(c: Clocked, k: Key, v: Bytes, pick: Key)
    requires Shape(c.s) && Chronological(c) && c.s.Known(k) && !c.s.Resident(k)
    ensures Chronological(ClockStep(c, Put(k, v, pick)))
  {
    var q := c.s.(p := TargetFor(c.s, k));
    var r := Admitted(c, Admit2(Replace(q, k !in c.s.b1), k !in c.s.b1, k, v), k);
    assert Chronological(r) by {
      SameListsSameOrder(c, q);
      GhostHitKeepsOrder(c.(s := q), k !in c.s.b1, k, v);
    }
    assert ClockStep(c, Put(k, v, pick)) == r;
  }

  lemma PutKeepsOrder(c: Clocked, k: Key, v: Bytes, pick: Key)
    requires Shape(c.s) && Chronological(c)
    ensures Chronological(ClockStep(c, Put(k, v, pick)))
  {
    if c.s.Resident(k) {
      OverwriteKeepsOrder(c, k, v, pick);
    } else if c.s.Known(k) {
      GhostPutKeepsOrder(c, k, v, pick);
    } else {
      FreshKeepsOrder(c, k, v, pick);
    }
  }

  lemma {:induction false} TouchAllKeepsOrder(c: Clocked, ks: seq<Key>)
    requires Shape(c.s) && Chronological(c)
    ensures Chronological(TouchAll(c, ks)) && TouchAll(c, ks).s == OnHint(c.s, ks)
    decreases |ks|
  {
    if ks != [] {
      TouchKeepsOrder(c, ks[0]);
      PromoteKeepsShape(c.s, ks[0]);
      TouchAllKeepsOrder(Touch(c, ks[0]), ks[1..]);
    }
  }

  lemma EraseKeepsOrder(c: Clocked, k: Key)
    requires Shape(c.s) && Chronological(c)
    ensures Chronological(ClockStep(c, Erase(k)))
  {
    var s := c.s;
    OrderWithout(s.t1, s.b1, c.seen, c.now, k);
    OrderWithout(s.t2, s.b2, c.seen, c.now, k);
    WithoutFacts(s.t1, k);
    OrderFewerGhosts(OnErase(s, k).t1, s.b1, s.b1 - {k}, c.seen, c.now);
    OrderFewerGhosts(OnErase(s, k).t2, s.b2, s.b2 - {k}, c.seen, c.now);
  }

  lemma ClockStepKeepsOrder(c: Clocked, op: Op)
    requires Shape(c.s) && Chronological(c)
    ensures Chronological(ClockStep(c, op)) && ClockStep(c, op).s == Step(c.s, op)
  {
    match op
    case Get(k) => TouchKeepsOrder(c, k);
    case Put(k, v, pick) => PutKeepsOrder(c, k, v, pick);
    case Erase(k) => EraseKeepsOrder(c, k);
    case Resize(n) =>
      OrderTake(c.s.t1, c.s.b1, c.seen, c.now, |OnResize(c.s, n).t1|);
      OrderTake(c.s.t2, c.s.b2, c.seen, c.now, |OnResize(c.s, n).t2|);
    case Clear =>
    case Hint(ks) => TouchAllKeepsOrder(c, ks);
  }

  /** After any run at any capacities the lists are in recency order. */
  lemma {:induction false} RecencyOrder(cap: nat, ops: seq<Op>)
    ensures ClockRun(cap, ops).s == Run(Empty(cap), ops)
    ensures Chronological(ClockRun(cap, ops))
  {
    if ops != [] {
      RecencyOrder(cap, Init(ops));
      ReachableShape(cap, Init(ops));
      ClockStepKeepsOrder(ClockRun(cap, Init(ops)), Last(ops));
    }
  }

  /** The last of an ordered list was touched before the rest of it and after its ghosts. */
  lemma LastIsOldest(l: seq<Key>, b: set<Key>, m: Stamps, now: nat)
    requires Ordered(l, b, m, now) && l != []
    ensures forall j :: j in l && j != Last(l) ==> At(m, Last(l)) < At(m, j)
    ensures forall j :: j in b ==> At(m, j) < At(m, Last(l))
  {
  }

  /** So whatever `replace` evicts, at whatever target, was touched before everything that stays in
      its list, and after every ghost that fell out of that list earlier. */
  lemma VictimIsLeastRecent(cap: nat, ops: seq<Op>, target: nat, inB2: bool)
    ensures var s, seen := Run(Empty(cap), ops).(p := target), ClockRun(cap, ops).seen;
      var (l, b) := if TakesT1(s, inB2) then (s.t1, s.b1) else (s.t2, s.b2);
      if l == [] then Replace(s, inB2).val == s.val
      else
        && Replace(s, inB2).val == s.val - {Last(l)}
        && (forall j :: j in l && j != Last(l) ==> At(seen, Last(l)) < At(seen, j))
        && (forall j :: j in b ==> At(seen, j) < At(seen, Last(l)))
  {
    RecencyOrder(cap, ops);
    var s, c := Run(Empty(cap), ops).(p := target), ClockRun(cap, ops);
    if TakesT1(s, inB2) {
      LastIsOldest(s.t1, s.b1, c.seen, c.now);
    } else if s.t2 != [] {
      LastIsOldest(s.t2, s.b2, c.seen, c.now);
    }
  }

  lemma PutTakesTheLast(s: Arc, k: Key, v: Bytes, pick: Key, x: Key)
    requires Shape(s) && s.Resident(x) && !OnPut(s, k, v, pick).Resident(x)
    ensures var l := if x in s.t1 then s.t1 else s.t2;
      l != [] && x == Last(l)
  {
    if s.Resident(k) {
      PromoteKeepsShape(s, k);
    } else {
      if s.t1 != [] { InitFacts(s.t1); }
      if s.t2 != [] { InitFacts(s.t2); }
    }
  }

  /** Any resident that a put takes out, by `replace` at the adapted target or by dropping it from a
      full `t1`, was touched before every other key of its list. */
  lemma PutTakesTheLeastRecent(cap: nat, ops: seq<Op>, k: Key, v: Bytes, pick: Key, x: Key)
    requires Run(Empty(cap), ops).Resident(x)
    requires !Run(Empty(cap), ops + [Put(k, v, pick)]).Resident(x)
    ensures var s, seen := Run(Empty(cap), ops), ClockRun(cap, ops).seen;
      forall j :: j in (if x in s.t1 then s.t1 else s.t2) && j != x ==> At(seen, x) < At(seen, j)
  {
    var s, c := Run(Empty(cap), ops), ClockRun(cap, ops);
    RecencyOrder(cap, ops);
    ReachableShape(cap, ops);
    RunSnoc(Empty(cap), ops, Put(k, v, pick));
    PutTakesTheLast(s, k, v, pick, x);
    if x in s.t1 {
      LastIsOldest(s.t1, s.b1, c.seen, c.now);
    } else {
      LastIsOldest(s.t2, s.b2, c.seen, c.now);
    }
  }
}
