/** The Adaptive Replacement Cache as a state machine on values. `t1` and `t2` list resident keys,
    most recent first; `b1` and `b2` are the ghosts, keys evicted from `t1` and `t2`. */
module ArcSpec {
  import opened Sequences
  import opened CacheTypes

  datatype Arc = Arc(
    t1: seq<Key>, t2: seq<Key>, b1: set<Key>, b2: set<Key>, val: map<Key, Bytes>,
    cap: nat, p: nat, hits: nat, misses: nat, evictions: nat)
  {
    predicate Resident(k: Key) { k in t1 || k in t2 }

    predicate Known(k: Key) { Resident(k) || k in b1 || k in b2 }

    function Size(): nat { |t1| + |t2| }

    /** Keys in the directory, ghosts included. */
    function Total(): nat { |t1| + |t2| + |b1| + |b2| }
  }

  function Empty(cap: nat): Arc {
    Arc([], [], {}, {}, map[], cap, 0, 0, 0, 0)
  }

  /** A resident key is touched: it becomes the head of `t2`. */
  function Promote(s: Arc, k: Key): Arc {
    if k in s.t1 then s.(t1 := Without(s.t1, k), t2 := [k] + s.t2)
    else if k in s.t2 then s.(t2 := ToFront(s.t2, k))
    else s
  }

  function OnGet(s: Arc, k: Key): Arc {
    if s.Resident(k) then Promote(s, k).(hits := s.hits + 1)
    else s.(misses := s.misses + 1)
  }

  /** Whether `Replace` takes its victim from `t1`. */
  predicate TakesT1(s: Arc, inB2: bool) {
    s.t1 != [] && (|s.t1| > s.p || (inB2 && |s.t1| == s.p))
  }

  function Replace(s: Arc, inB2: bool): Arc {
    var r := s.(evictions := s.evictions + 1);
    if TakesT1(s, inB2) then
      r.(t1 := Init(s.t1), b1 := s.b1 + {Last(s.t1)}, val := s.val - {Last(s.t1)})
    else if s.t2 != [] then
      r.(t2 := Init(s.t2), b2 := s.b2 + {Last(s.t2)}, val := s.val - {Last(s.t2)})
    else r
  }

  function RaisedTarget(s: Arc): nat {
    Min(s.cap, s.p + Max(1, |s.b2| / Max(1, |s.b1|)))
  }

  function LoweredTarget(s: Arc): nat {
    var d := Max(1, |s.b1| / Max(1, |s.b2|));
    if s.p > d then s.p - d else 0
  }

  ghost function AnyOf(b: set<Key>): Key
    requires b != {}
  {
    var x :| x in b; x
  }

  /** Forgets one ghost, if there is one. */
  ghost function Forget(b: set<Key>, pick: Key): set<Key> {
    if b == {} then b
    else if pick in b then b - {pick}
    else b - {AnyOf(b)}
  }

  /** The state in which a key that is nowhere in the directory is about to enter `t1`. */
  ghost function MakeRoom(s: Arc, pick: Key): Arc {
    if |s.t1| + |s.b1| >= s.cap then
      if |s.t1| < s.cap then Replace(s.(b1 := Forget(s.b1, pick)), false)
      else if s.t1 != [] then
        s.(t1 := Init(s.t1), val := s.val - {Last(s.t1)}, evictions := s.evictions + 1)
      else s
    else if s.Total() >= s.cap then
      Replace(if s.Total() == 2 * s.cap then s.(b2 := Forget(s.b2, pick)) else s, false)
    else s
  }

  function Admit1(s: Arc, k: Key, v: Bytes): Arc {
    s.(t1 := [k] + s.t1, val := s.val[k := v])
  }

  /** A key found in `b2`, or else in `b1`, leaves its ghost list for `t2`. */
  function Admit2(s: Arc, inB2: bool, k: Key, v: Bytes): Arc {
    var r := s.(t2 := [k] + s.t2, val := s.val[k := v]);
    if inB2 then r.(b2 := s.b2 - {k}) else r.(b1 := s.b1 - {k})
  }

  /** The target in force when a put of the non-resident key `k` picks its victim. */
  function TargetFor(s: Arc, k: Key): nat {
    if k in s.b1 then RaisedTarget(s) else if k in s.b2 then LoweredTarget(s) else s.p
  }

  /** The state right before a key found among the ghosts enters `t2`. */
  function GhostHit(s: Arc, k: Key): Arc {
    Replace(s.(p := TargetFor(s, k)), k !in s.b1)
  }

  ghost function OnPut(s: Arc, k: Key, v: Bytes, pick: Key): Arc {
    if s.Resident(k) then Promote(s, k).(val := s.val[k := v])
    else if k in s.b1 || k in s.b2 then Admit2(GhostHit(s, k), k !in s.b1, k, v)
    else Admit1(MakeRoom(s, pick), k, v)
  }

  function OnErase(s: Arc, k: Key): Arc {
    var r := s.(b1 := s.b1 - {k}, b2 := s.b2 - {k});
    if k in s.t1 then r.(t1 := Without(s.t1, k), val := s.val - {k})
    else if k in s.t2 then r.(t2 := Without(s.t2, k), val := s.val - {k})
    else r
  }

  /** Shrinks to `c` residents, emptying `t1` before touching `t2`. */
  function OnResize(s: Arc, c: nat): Arc {
    var excess := Max(0, s.Size() - c);
    var n1 := |s.t1| - Min(|s.t1|, excess);
    var n2 := Min(|s.t2|, c);
    s.(cap := c, t1 := s.t1[..n1], t2 := s.t2[..n2], evictions := s.evictions + excess,
       val := s.val - Elems(s.t1[n1..]) - Elems(s.t2[n2..]))
  }

  function OnHint(s: Arc, ks: seq<Key>): Arc
    decreases |ks|
  {
    if ks == [] then s else OnHint(Promote(s, ks[0]), ks[1..])
  }

  ghost function Step(s: Arc, op: Op): Arc {
    match op
    case Get(k) => OnGet(s, k)
    case Put(k, v, pick) => OnPut(s, k, v, pick)
    case Erase(k) => OnErase(s, k)
    case Resize(c) => OnResize(s, c)
    case Clear => Empty(s.cap)
    case Hint(ks) => OnHint(s, ks)
  }

  /** The state after the calls `ops`, the last of them last. */
  ghost function Run(s: Arc, ops: seq<Op>): Arc {
    if ops == [] then s else Step(Run(s, Init(ops)), Last(ops))
  }

  lemma RunSnoc(s: Arc, ops: seq<Op>, op: Op)
    ensures Run(s, ops + [op]) == Step(Run(s, ops), op)
  {
    assert Init(ops + [op]) == ops;
  }

  lemma {:induction false} RunConcat(s: Arc, a: seq<Op>, b: seq<Op>)
    ensures Run(s, a + b) == Run(Run(s, a), b)
    decreases |b|
  {
    if b == [] {
      assert a + b == a;
    } else {
      assert Init(a + b) == a + Init(b);
      RunConcat(s, a, Init(b));
    }
  }

  lemma PutAddsOnlyItsKey(s: Arc, k: Key, v: Bytes, pick: Key)
    ensures var r := OnPut(s, k, v, pick);
      && k in r.val && r.val[k] == v
      && (forall j :: j in r.val && j != k ==> j in s.val && r.val[j] == s.val[j])
      && r.hits == s.hits && r.misses == s.misses
  {
  }

  lemma PromoteResidents(s: Arc, k: Key)
    requires Distinct(s.t1) && Distinct(s.t2)
    ensures forall j :: Promote(s, k).Resident(j) <==> s.Resident(j)
  {
    WithoutFacts(s.t1, k);
    ToFrontFacts(s.t2, k);
  }

  lemma ReplaceAddsNothing(s: Arc, inB2: bool)
    ensures forall k :: Replace(s, inB2).Resident(k) ==> s.Resident(k)
  {
  }

  /** Making room only takes keys out of the lists. */
  lemma MakeRoomAddsNothing(s: Arc, pick: Key)
    ensures forall k :: MakeRoom(s, pick).Resident(k) ==> s.Resident(k)
  {
  }

  /** One round of the loop in `resize`: the least recent entry of `t1` goes, or of `t2` when `t1`
      is empty. */
  function ShrinkByOne(s: Arc): Arc
    requires s.Size() > 0
  {
    var r := s.(evictions := s.evictions + 1);
    if s.t1 != [] then r.(t1 := Init(s.t1), val := s.val - {Last(s.t1)})
    else r.(t2 := Init(s.t2), val := s.val - {Last(s.t2)})
  }

  lemma ShrinkByOneTowards(s: Arc, c: nat)
    requires s.Size() > c
    ensures OnResize(ShrinkByOne(s), c) == OnResize(s, c)
  {
    var r := OnResize(s, c);
    if s.t1 != [] {
      DropTail(s.val, s.t1, |r.t1|);
      assert OnResize(ShrinkByOne(s), c).t1 == r.t1;
    } else {
      assert s.t1[0..] == [] && Elems<Key>([]) == {};
      DropTail(s.val, s.t2, |r.t2|);
      assert OnResize(ShrinkByOne(s), c).t2 == r.t2;
    }
  }

  lemma ResizeDone(s: Arc)
    requires s.Size() <= s.cap
    ensures OnResize(s, s.cap) == s
  {
    assert s.t1[|s.t1|..] == [] && s.t2[|s.t2|..] == [];
    assert s.val - {} - {} == s.val;
  }
}
