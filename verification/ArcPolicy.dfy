/** What ARC's calls do, said of the lists, the target and the counters themselves: how far a ghost
    hit moves the target, which list then gives up its last entry, and where that entry goes. */
module ArcPolicy {
  import opened Sequences
  import opened CacheTypes
  import opened ArcSpec
  import opened ArcInvariants

  /** `d` is how many times `part` goes into `whole`, or 1 if it does not. */
  predicate TimesInto(d: nat, part: nat, whole: nat) {
    && d >= 1
    && (whole < part ==> d == 1)
    && (whole >= part ==> d * part <= whole < (d + 1) * part)
  }

  lemma QuotientTimes(part: nat, whole: nat) returns (d: nat)
    requires part >= 1
    ensures d == Max(1, whole / Max(1, part)) && TimesInto(d, part, whole)
  {
    d := Max(1, whole / part);
    if whole >= part {
      assert d == whole / part;
      assert whole == part * d + whole % part;
    }
  }

  /** A hit on a ghost of `b1` raises the target by how many times `b1` goes into `b2`, and at least
      by one, but not beyond the capacity. */
  lemma B1HitRaisesTheTarget(s: Arc, k: Key, v: Bytes, pick: Key) returns (d: nat)
    requires Shape(s) && k in s.b1
    ensures TimesInto(d, |s.b1|, |s.b2|) && OnPut(s, k, v, pick).p == Min(s.cap, s.p + d)
  {
    d := QuotientTimes(|s.b1|, |s.b2|);
  }

  /** A hit on a ghost of `b2` lowers it by how many times `b2` goes into `b1`, and at least by one,
      but not below zero. */
  lemma B2HitLowersTheTarget(s: Arc, k: Key, v: Bytes, pick: Key) returns (d: nat)
    requires Shape(s) && k in s.b2
    ensures TimesInto(d, |s.b2|, |s.b1|) && s.p == OnPut(s, k, v, pick).p + Min(s.p, d)
  {
    d := QuotientTimes(|s.b2|, |s.b1|);
  }

  /** Nothing else moves the target, but clearing, which zeroes it. */
  lemma OnlyGhostHitsMoveTheTarget(s: Arc, op: Op)
    requires Shape(s) && !(op.Put? && (op.key in s.b1 || op.key in s.b2))
    ensures Step(s, op).p == if op.Clear? then 0 else s.p
  {
    if op.Hint? {
      HintKeepsShape(s, op.keys);
    }
  }

  /** `r` is `s` after `t1` gave up its last entry to `b1`, ... */
  ghost predicate GaveUpT1(s: Arc, r: Arc) {
    s.t1 != [] && r.t1 == Init(s.t1) && r.t2 == s.t2 && r.b1 == s.b1 + {Last(s.t1)} && r.b2 == s.b2
  }

  /** ... after `t2` gave up its last entry to `b2`, ... */
  ghost predicate GaveUpT2(s: Arc, r: Arc) {
    s.t2 != [] && r.t1 == s.t1 && r.t2 == Init(s.t2) && r.b1 == s.b1 && r.b2 == s.b2 + {Last(s.t2)}
  }

  /** ... or with the lists as they were. */
  ghost predicate SameLists(s: Arc, r: Arc) {
    r.t1 == s.t1 && r.t2 == s.t2 && r.b1 == s.b1 && r.b2 == s.b2
  }

  /** The lists after `s` made room: `t1` gives up an entry if it is longer than the target `p`, or
      just as long and `tie` says so; otherwise `t2` does if it can. */
  ghost predicate Replaced(s: Arc, p: nat, tie: bool, r: Arc) {
    if s.t1 != [] && (|s.t1| > p || (tie && |s.t1| == p)) then GaveUpT1(s, r)
    else if s.t2 != [] then GaveUpT2(s, r)
    else SameLists(s, r)
  }

  lemma ReplaceLists(s: Arc, target: nat, inB2: bool)
    requires Shape(s)
    ensures var r := Replace(s.(p := target), inB2);
      && Replaced(s, target, inB2, r)
      && (forall j :: j in s.b1 ==> j !in r.b2) && (forall j :: j in s.b2 ==> j !in r.b1)
  {
  }

  lemma GhostHitIs(s: Arc, k: Key, v: Bytes, pick: Key)
    requires Shape(s) && (k in s.b1 || k in s.b2)
    ensures OnPut(s, k, v, pick) == Admit2(Replace(s.(p := TargetFor(s, k)), k in s.b2), k in s.b2, k, v)
    ensures OnPut(s, k, v, pick).p == TargetFor(s, k)
  {
    assert !s.Resident(k) && (k in s.b2 <==> k !in s.b1);
  }

  lemma AdmitLists(s: Arc, inB2: bool, k: Key, v: Bytes)
    requires k !in if inB2 then s.b1 else s.b2
    ensures var r := Admit2(s, inB2, k, v);
      r.t1 == s.t1 && r.t2 == [k] + s.t2 && r.b1 == s.b1 - {k} && r.b2 == s.b2 - {k}
  {
  }

  /** After a ghost hit the key is the head of `t2`, no longer a ghost, and the lists have made room
      at the target that the hit has just adapted, `t1` going first in a tie for a ghost of `b2`. */
  lemma GhostHitLists(s: Arc, k: Key, v: Bytes, pick: Key) returns (room: Arc)
    requires Shape(s) && (k in s.b1 || k in s.b2)
    ensures var r := OnPut(s, k, v, pick);
      && Replaced(s, r.p, k in s.b2, room)
      && r.t1 == room.t1 && r.t2 == [k] + room.t2
      && r.b1 == room.b1 - {k} && r.b2 == room.b2 - {k}
  {
    room := Replace(s.(p := TargetFor(s, k)), k in s.b2);
    ReplaceLists(s, TargetFor(s, k), k in s.b2);
    GhostHitIs(s, k, v, pick);
    AdmitLists(room, k in s.b2, k, v);
  }

  /** How a new key finds room: the one ghost that is forgotten first, if any, and then which list
      gives up an entry. */
  datatype Room = Free | DropT1 | ForgetB1 | ForgetB2 | ReplaceOnly

  function RoomFor(s: Arc): Room {
    if |s.t1| + |s.b1| < s.cap then
      if |s.t1| + |s.t2| + |s.b1| + |s.b2| < s.cap then Free
      else if |s.t1| + |s.t2| + |s.b1| + |s.b2| == 2 * s.cap && s.b2 != {} then ForgetB2
      else ReplaceOnly
    else if |s.t1| < s.cap then ForgetB1
    else if s.t1 != [] then DropT1
    else Free
  }

  ghost predicate OneLess(b: set<Key>, b': set<Key>) {
    exists j :: j in b && b' == b - {j}
  }

  lemma ForgottenOne(b: set<Key>, pick: Key)
    requires b != {}
    ensures OneLess(b, Forget(b, pick))
  {
    var j := if pick in b then pick else AnyOf(b);
    assert j in b && Forget(b, pick) == b - {j};
  }

  /** After the put of a new key it is the head of `t1`. Below capacity nothing gives way; a `t1` that
      fills the cache by itself loses its last entry for good; in all other cases the lists make room
      at the target, after a ghost of `b1` or `b2` has been forgotten if that list is full. */
  lemma NewKeyLists(s: Arc, k: Key, v: Bytes, pick: Key) returns (less: Arc, room: Arc)
    requires Shape(s) && !s.Known(k)
    ensures var r := OnPut(s, k, v, pick);
      && r.t1 == [k] + room.t1 && r.t2 == room.t2 && r.b1 == room.b1 && r.b2 == room.b2
      && match RoomFor(s)
         case Free => SameLists(s, room)
         case DropT1 => SameLists(s.(t1 := Init(s.t1)), room)
         case ReplaceOnly => Replaced(s, s.p, false, room)
         case ForgetB1 => less == s.(b1 := less.b1) && OneLess(s.b1, less.b1) && Replaced(less, s.p, false, room)
         case ForgetB2 => less == s.(b2 := less.b2) && OneLess(s.b2, less.b2) && Replaced(less, s.p, false, room)
  {
    room := MakeRoom(s, pick);
    less := s;
    if RoomFor(s).ForgetB1? {
      less := s.(b1 := Forget(s.b1, pick));
      ForgottenOne(s.b1, pick);
    } else if RoomFor(s).ForgetB2? {
      less := s.(b2 := Forget(s.b2, pick));
      ForgottenOne(s.b2, pick);
    }
  }

  /** A touch, by a lookup or by overwriting, puts a resident key at the head of `t2` and leaves the
      order of all the others, the ghosts and the evictions alone. */
  lemma TouchLists(s: Arc, k: Key, v: Bytes, pick: Key)
    requires Shape(s) && s.Resident(k)
    ensures forall r :: r in {OnGet(s, k), OnPut(s, k, v, pick)} ==>
      && r.t2 != [] && r.t2[0] == k && r.t2[1..] == Excluding(s.t2, [k]) && r.t1 == Excluding(s.t1, [k])
      && r.b1 == s.b1 && r.b2 == s.b2 && r.p == s.p && r.cap == s.cap && r.evictions == s.evictions
  {
    ExcludingOneMore(s.t1, k, []);
    ExcludingOneMore(s.t2, k, []);
    ExcludingNone(Without(s.t1, k));
    ExcludingNone(Without(s.t2, k));
    WithoutAbsent(if k in s.t1 then s.t2 else s.t1, k);
    assert [k] + [] == [k];
  }

  /** Erasing takes the key, wherever it is, and nothing else. */
  lemma EraseLists(s: Arc, k: Key)
    requires Shape(s)
    ensures var r := OnErase(s, k);
      && r.t1 == Excluding(s.t1, [k]) && r.t2 == Excluding(s.t2, [k])
      && r.b1 == s.b1 - {k} && r.b2 == s.b2 - {k} && r.val == s.val - {k}
      && r.p == s.p && r.cap == s.cap
  {
    ExcludingOneMore(s.t1, k, []);
    ExcludingOneMore(s.t2, k, []);
    ExcludingNone(Without(s.t1, k));
    ExcludingNone(Without(s.t2, k));
    if k !in s.t1 { WithoutAbsent(s.t1, k); }
    if k !in s.t2 { WithoutAbsent(s.t2, k); }
    assert [k] + [] == [k];
  }

  /** A lookup counts a hit if it finds the key and a miss if not; no other call counts either; and
      only puts and resizes count evictions. */
  lemma CountersMove(s: Arc, op: Op)
    requires Shape(s) && !op.Clear?
    ensures var r := Step(s, op);
      && r.hits == s.hits + (if op.Get? && op.key in s.val then 1 else 0)
      && r.misses == s.misses + (if op.Get? && op.key !in s.val then 1 else 0)
      && (r.evictions != s.evictions ==> op.Put? || op.Resize?)
  {
    match op
    case Put(k, v, pick) => PutAddsOnlyItsKey(s, k, v, pick);
    case Hint(ks) => HintKeepsShape(s, ks);
    case _ =>
  }
}
