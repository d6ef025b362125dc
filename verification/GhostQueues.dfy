/** The ghosts of the Python ARC, which keeps them in the order in which they were evicted and
    forgets from the end. `b1` and `b2` list them, oldest first. */
module GhostQueues {
  import opened Sequences
  import opened CacheTypes
  import opened OrderedDicts
  import opened ArcSpec
  import opened ArcInvariants
  import opened ArcRecency

  datatype Queues = Queues(b1: seq<Key>, b2: seq<Key>)

  function Newest(b: seq<Key>): Key {
    if b == [] then "" else Last(b)
  }

  function WithoutNewest(b: seq<Key>): seq<Key> {
    if b == [] then [] else Init(b)
  }

  /** Where `Replace` puts its victim. */
  function Retire(s: Arc, q: Queues, inB2: bool): Queues {
    if TakesT1(s, inB2) then q.(b1 := Appended(q.b1, Last(s.t1)))
    else if s.t2 != [] then q.(b2 := Appended(q.b2, Last(s.t2)))
    else q
  }

  /** The ghost that a put forgets if it has to forget one. */
  function PickOf(s: Arc, q: Queues): Key {
    if |s.t1| + |s.b1| >= s.cap then Newest(q.b1) else Newest(q.b2)
  }

  function QueuesMakingRoom(s: Arc, q: Queues): Queues {
    if |s.t1| + |s.b1| >= s.cap then
      if |s.t1| < s.cap then Retire(s, q.(b1 := WithoutNewest(q.b1)), false) else q
    else if s.Total() >= s.cap then
      Retire(s, if s.Total() == 2 * s.cap then q.(b2 := WithoutNewest(q.b2)) else q, false)
    else q
  }

  function QueuesHit(s: Arc, q: Queues, k: Key): Queues {
    var r := Retire(s.(p := TargetFor(s, k)), q, k !in s.b1);
    if k in s.b1 then r.(b1 := Without(r.b1, k)) else r.(b2 := Without(r.b2, k))
  }

  function QueuesPut(s: Arc, q: Queues, k: Key): Queues {
    if s.Resident(k) then q
    else if k in s.b1 || k in s.b2 then QueuesHit(s, q, k)
    else QueuesMakingRoom(s, q)
  }

  function QueuesStep(s: Arc, q: Queues, op: Op): Queues {
    match op
    case Put(k, _, _) => QueuesPut(s, q, k)
    case Erase(k) => Queues(Without(q.b1, k), Without(q.b2, k))
    case Clear => Queues([], [])
    case _ => q
  }

  /** The call with the ghost that Python forgets. */
  function Picked(s: Arc, q: Queues, op: Op): Op {
    if op.Put? then Put(op.key, op.value, PickOf(s, q)) else op
  }

  datatype Queued = Queued(c: Clocked, q: Queues, ops: seq<Op>)

  /** The call raises KeyError, and changes nothing: a new key at capacity 0 with `t1` empty. */
  predicate Raises(s: Arc, op: Op) {
    op.Put? && s.cap == 0 && s.t1 == [] && !s.Known(op.key)
  }

  /** A run of the Python cache against the clock, and the calls that went through, with the ghosts
      they picked. */
  ghost function QueuedRun(cap: nat, ops: seq<Op>): Queued {
    if ops == [] then Queued(ClockRun(cap, []), Queues([], []), [])
    else
      var r := QueuedRun(cap, Init(ops));
      var op := Picked(r.c.s, r.q, Last(ops));
      if Raises(r.c.s, op) then r
      else Queued(ClockStep(r.c, op), QueuesStep(r.c.s, r.q, op), r.ops + [op])
  }

  /** `q` lists the ghosts `b` strictly in the order of their last touch, latest at the end. */
  ghost predicate Aged(q: seq<Key>, b: set<Key>, seen: Stamps) {
    && (forall k :: k in q <==> k in b)
    && forall i, j :: 0 <= i < j < |q| ==> At(seen, q[i]) < At(seen, q[j])
  }

  ghost predicate InOrder(c: Clocked, q: Queues) {
    Aged(q.b1, c.s.b1, c.seen) && Aged(q.b2, c.s.b2, c.seen)
  }

  lemma AgedAppend(l: seq<Key>, q: seq<Key>, b: set<Key>, m: Stamps, now: nat)
    requires Ordered(l, b, m, now) && l != [] && Aged(q, b, m) && Last(l) !in b
    ensures Aged(Appended(q, Last(l)), b + {Last(l)}, m)
  {
    LastIsOldest(l, b, m, now);
    assert forall i :: 0 <= i < |q| ==> q[i] in b;
  }

  lemma AgedDrop(q: seq<Key>, b: set<Key>, pick: Key, m: Stamps)
    requires Aged(q, b, m) && pick == Newest(q)
    ensures Aged(WithoutNewest(q), Forget(b, pick), m)
  {
    if q != [] {
      assert Last(q) in b;
      assert Distinct(q);
      InitFacts(q);
    } else {
      assert b == {};
    }
  }

  lemma AgedWithout(q: seq<Key>, b: set<Key>, k: Key, m: Stamps)
    requires Aged(q, b, m)
    ensures Aged(Without(q, k), b - {k}, m)
  {
    assert Distinct(q);
    WithoutFacts(q, k);
    if k in q {
      var i := WithoutIndex(q, k);
    } else {
      WithoutAbsent(q, k);
    }
  }

  lemma AgedElsewhere(q: seq<Key>, b: set<Key>, k: Key, m: Stamps, now: nat)
    requires Aged(q, b, m) && k !in b
    ensures Aged(q, b, m[k := now])
  {
    assert forall i :: 0 <= i < |q| ==> q[i] in b;
  }

  lemma RetireKeepsOrder(c: Clocked, q: Queues, inB2: bool)
    requires Shape(c.s) && Chronological(c) && InOrder(c, q)
    ensures InOrder(c.(s := Replace(c.s, inB2)), Retire(c.s, q, inB2))
  {
    if TakesT1(c.s, inB2) {
      AgedAppend(c.s.t1, q.b1, c.s.b1, c.seen, c.now);
    } else if c.s.t2 != [] {
      AgedAppend(c.s.t2, q.b2, c.s.b2, c.seen, c.now);
    }
  }

  lemma ForgetB1KeepsOrder(c: Clocked, q: Queues)
    requires Shape(c.s) && Chronological(c) && InOrder(c, q)
    ensures var d := c.(s := c.s.(b1 := Forget(c.s.b1, Newest(q.b1))));
      InOrder(c.(s := Replace(d.s, false)), Retire(d.s, q.(b1 := WithoutNewest(q.b1)), false))
  {
    var d := c.(s := c.s.(b1 := Forget(c.s.b1, Newest(q.b1))));
    AgedDrop(q.b1, c.s.b1, Newest(q.b1), c.seen);
    OrderFewerGhosts(c.s.t1, c.s.b1, d.s.b1, c.seen, c.now);
    RetireKeepsOrder(d, q.(b1 := WithoutNewest(q.b1)), false);
  }

  lemma ForgetB2KeepsOrder(c: Clocked, q: Queues)
    requires Shape(c.s) && Chronological(c) && InOrder(c, q)
    ensures var d := c.(s := c.s.(b2 := Forget(c.s.b2, Newest(q.b2))));
      InOrder(c.(s := Replace(d.s, false)), Retire(d.s, q.(b2 := WithoutNewest(q.b2)), false))
  {
    var d := c.(s := c.s.(b2 := Forget(c.s.b2, Newest(q.b2))));
    AgedDrop(q.b2, c.s.b2, Newest(q.b2), c.seen);
    OrderFewerGhosts(c.s.t2, c.s.b2, d.s.b2, c.seen, c.now);
    RetireKeepsOrder(d, q.(b2 := WithoutNewest(q.b2)), false);
  }

  lemma MakingRoomKeepsOrder(c: Clocked, q: Queues)
    requires Shape(c.s) && Chronological(c) && InOrder(c, q)
    ensures InOrder(c.(s := MakeRoom(c.s, PickOf(c.s, q))), QueuesMakingRoom(c.s, q))
  {
    if |c.s.t1| + |c.s.b1| >= c.s.cap {
      ForgetB1KeepsOrder(c, q);
    } else if c.s.Total() == 2 * c.s.cap {
      ForgetB2KeepsOrder(c, q);
    } else {
      RetireKeepsOrder(c, q, false);
    }
  }

  lemma TakeOut(seen: Stamps, now: nat, q: Queues, s: Arc, k: Key, inB2: bool)
    requires Aged(q.b1, s.b1, seen) && Aged(q.b2, s.b2, seen) && s.b1 !! s.b2
    requires k in (if inB2 then s.b2 else s.b1)
    ensures inB2 ==> Aged(q.b1, s.b1, seen[k := now]) && Aged(Without(q.b2, k), s.b2 - {k}, seen[k := now])
    ensures !inB2 ==> Aged(Without(q.b1, k), s.b1 - {k}, seen[k := now]) && Aged(q.b2, s.b2, seen[k := now])
  {
    AgedWithout(q.b1, s.b1, k, seen);
    AgedWithout(q.b2, s.b2, k, seen);
    AgedElsewhere(if inB2 then q.b1 else Without(q.b1, k), s.b1 - {k}, k, seen, now);
    AgedElsewhere(if inB2 then Without(q.b2, k) else q.b2, s.b2 - {k}, k, seen, now);
    assert inB2 ==> s.b1 - {k} == s.b1;
    assert !inB2 ==> s.b2 - {k} == s.b2;
  }

  lemma HitKeepsOrder(c: Clocked, q: Queues, k: Key, v: Bytes, pick: Key)
    requires Shape(c.s) && Chronological(c) && InOrder(c, q)
    requires !c.s.Resident(k) && (k in c.s.b1 || k in c.s.b2)
    ensures InOrder(ClockStep(c, Put(k, v, pick)), QueuesHit(c.s, q, k))
  {
    var d := c.(s := c.s.(p := TargetFor(c.s, k)));
    SameListsSameOrder(c, d.s);
    RetireKeepsOrder(d, q, k !in c.s.b1);
    ReplaceKeepsShape(d.s, k !in c.s.b1);
    var r, h := Retire(d.s, q, k !in c.s.b1), Replace(d.s, k !in c.s.b1);
    TakeOut(c.seen, c.now, r, h, k, k !in c.s.b1);
  }

  lemma TouchKeepsQueues(c: Clocked, k: Key, q: Queues)
    requires Shape(c.s) && InOrder(c, q)
    ensures InOrder(Touch(c, k), q)
  {
    if c.s.Resident(k) {
      AgedElsewhere(q.b1, c.s.b1, k, c.seen, c.now);
      AgedElsewhere(q.b2, c.s.b2, k, c.seen, c.now);
    }
  }

  lemma {:induction false} TouchAllKeepsQueues(c: Clocked, ks: seq<Key>, q: Queues)
    requires Shape(c.s) && InOrder(c, q)
    ensures InOrder(TouchAll(c, ks), q)
    decreases |ks|
  {
    if ks != [] {
      TouchKeepsQueues(c, ks[0], q);
      PromoteKeepsShape(c.s, ks[0]);
      TouchAllKeepsQueues(Touch(c, ks[0]), ks[1..], q);
    }
  }

  lemma PutKeepsQueues(c: Clocked, q: Queues, k: Key, v: Bytes)
    requires Shape(c.s) && Chronological(c) && InOrder(c, q)
    ensures InOrder(ClockStep(c, Put(k, v, PickOf(c.s, q))), QueuesPut(c.s, q, k))
  {
    if c.s.Resident(k) {
      TouchKeepsQueues(c, k, q);
    } else if c.s.Known(k) {
      HitKeepsOrder(c, q, k, v, PickOf(c.s, q));
    } else {
      var r := MakeRoom(c.s, PickOf(c.s, q));
      MakingRoomKeepsOrder(c, q);
      MakeRoomKeepsShape(c.s, PickOf(c.s, q));
      AgedElsewhere(QueuesMakingRoom(c.s, q).b1, r.b1, k, c.seen, c.now);
      AgedElsewhere(QueuesMakingRoom(c.s, q).b2, r.b2, k, c.seen, c.now);
    }
  }

  lemma StepKeepsQueues(c: Clocked, q: Queues, op: Op)
    requires Shape(c.s) && Chronological(c) && InOrder(c, q)
    ensures var o := Picked(c.s, q, op); InOrder(ClockStep(c, o), QueuesStep(c.s, q, o))
  {
    match op
    case Get(k) => TouchKeepsQueues(c, k, q);
    case Put(k, v, _) => PutKeepsQueues(c, q, k, v);
    case Erase(k) =>
      AgedWithout(q.b1, c.s.b1, k, c.seen);
      AgedWithout(q.b2, c.s.b2, k, c.seen);
    case Resize(_) =>
    case Clear =>
    case Hint(ks) =>
      TouchAllKeepsQueues(c, ks, q);
  }

  lemma ClockRunSnoc(cap: nat, ops: seq<Op>, op: Op)
    ensures ClockRun(cap, ops + [op]) == ClockStep(ClockRun(cap, ops), op)
  {
    assert Init(ops + [op]) == ops;
  }

  /** Every run of the Python cache is a run of the abstract machine, and its ghost lists are always
      in the order of last touch. */
  lemma {:induction false} GhostsAreInOrder(cap: nat, ops: seq<Op>)
    ensures var r := QueuedRun(cap, ops);
      r.c == ClockRun(cap, r.ops) && InOrder(r.c, r.q) && |r.ops| <= |ops|
  {
    if ops != [] {
      var r := QueuedRun(cap, Init(ops));
      var op := Picked(r.c.s, r.q, Last(ops));
      GhostsAreInOrder(cap, Init(ops));
      RecencyOrder(cap, r.ops);
      ReachableShape(cap, r.ops);
      StepKeepsQueues(r.c, r.q, Last(ops));
      ClockRunSnoc(cap, r.ops, op);
    }
  }

  ghost predicate TouchedLast(b: set<Key>, j: Key, m: Stamps) {
    forall i :: i in b && i != j ==> At(m, i) < At(m, j)
  }

  lemma NewestIsLatest(q: seq<Key>, b: set<Key>, m: Stamps)
    requires Aged(q, b, m) && b != {}
    ensures Newest(q) in b && TouchedLast(b, Newest(q), m)
  {
    var x :| x in b;
    assert x in q;
  }

  lemma OnlyThePickIsForgotten(s: Arc, q: Queues, k: Key, v: Bytes, j: Key)
    requires !s.Known(k) && (s.b1 != {} ==> Newest(q.b1) in s.b1) && (s.b2 != {} ==> Newest(q.b2) in s.b2)
    ensures var r := OnPut(s, k, v, PickOf(s, q));
      && (j in s.b1 && j !in r.b1 ==> j == Newest(q.b1))
      && (j in s.b2 && j !in r.b2 ==> j == Newest(q.b2))
  {
  }

  ghost predicate TouchedFirst(b: set<Key>, j: Key, m: Stamps) {
    forall i :: i in b && i != j ==> At(m, j) < At(m, i)
  }

  lemma NextPut(cap: nat, ops: seq<Op>, k: Key, v: Bytes)
    ensures var t, r := QueuedRun(cap, ops), QueuedRun(cap, ops + [Put(k, v, k)]);
      r.c.s == if Raises(t.c.s, Put(k, v, k)) then t.c.s else OnPut(t.c.s, k, v, PickOf(t.c.s, t.q))
  {
    assert Init(ops + [Put(k, v, k)]) == ops;
  }

  /** What a put of a new key makes Python forget is the ghost touched last of its list. It is the
      one touched first, which the paper's ARC forgets, exactly when the list holds no other. */
  lemma ForgetsTheMostRecent(cap: nat, ops: seq<Op>, k: Key, v: Bytes, j: Key)
    requires !QueuedRun(cap, ops).c.s.Known(k)
    ensures var t := QueuedRun(cap, ops);
      var s, seen := t.c.s, t.c.seen;
      var r := QueuedRun(cap, ops + [Put(k, v, k)]).c.s;
      && (j in s.b1 && j !in r.b1 ==>
            TouchedLast(s.b1, j, seen) && (TouchedFirst(s.b1, j, seen) <==> s.b1 == {j}))
      && (j in s.b2 && j !in r.b2 ==>
            TouchedLast(s.b2, j, seen) && (TouchedFirst(s.b2, j, seen) <==> s.b2 == {j}))
  {
    GhostsAreInOrder(cap, ops);
    NextPut(cap, ops, k, v);
    var t := QueuedRun(cap, ops);
    if t.c.s.b1 != {} { NewestIsLatest(t.q.b1, t.c.s.b1, t.c.seen); }
    if t.c.s.b2 != {} { NewestIsLatest(t.q.b2, t.c.s.b2, t.c.seen); }
    OnlyThePickIsForgotten(t.c.s, t.q, k, v, j);
  }
}
