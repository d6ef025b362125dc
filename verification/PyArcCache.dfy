/** The Python ARC and ContextARC caches: four OrderedDicts. The ghosts' dicts map every key to
    None, so they are kept as their key order; the newest ghost is the last. */
module PyArcCache {
  import opened Sequences
  import opened CacheTypes
  import opened OrderedDicts
  import opened ArcSpec
  import opened ContextArc
  import opened GhostQueues

  class PyArcCache {
    var cap: nat
    var p: nat
    var t1: OrderedDict<Bytes>
    var t2: OrderedDict<Bytes>
    var b1: seq<Key>
    var b2: seq<Key>
    var hits: nat
    var misses: nat
    var evictions: nat

    ghost predicate Valid()
      reads this
    {
      && t1.Ok() && t2.Ok() && Distinct(b1) && Distinct(b2)
      && (forall k :: k in t1.keys ==> k !in t2.keys)
    }

    ghost function View(): Arc
      reads this
    {
      Arc(t1.keys, t2.keys, Elems(b1), Elems(b2), t1.items + t2.items, cap, p, hits, misses, evictions)
    }

    ghost function Ghosts(): Queues
      reads this
    {
      Queues(b1, b2)
    }

    constructor (capacity: nat)
      ensures Valid() && View() == Empty(capacity) && Ghosts() == Queues([], [])
    {
      cap, p := capacity, 0;
      t1, t2, b1, b2 := EMPTY, EMPTY, [], [];
      hits, misses, evictions := 0, 0, 0;
    }

    // ----------------------------------------------------------------
    // Steps that the operations share.
    // ----------------------------------------------------------------

    predicate Holds(key: Key)
      requires Valid()
      reads this
      ensures Holds(key) <==> View().Resident(key)
      ensures Holds(key) <==> key in View().val
    {
      key in t1.items || key in t2.items
    }

    method PromoteT1(key: Key, value: Bytes)
      requires Valid() && key in t1.keys
      modifies this`t1, this`t2
      ensures Valid()
      ensures View() == Promote(old(View()), key).(val := old(View()).val[key := value])
    {
      PopKeepsOk(t1, key);
      SetFront(t2, key, value);
      ToFrontFacts(t2.keys, key);
      WithoutAbsent(t2.keys, key);
      UnionUpdate(t1.items, t2.items, key, value);
      t1 := t1.Pop(key);
      t2 := t2.Set(key, value).MoveToFront(key);
    }

    method PromoteT2(key: Key, value: Bytes)
      requires Valid() && key in t2.keys
      modifies this`t2
      ensures Valid()
      ensures View() == Promote(old(View()), key).(val := old(View()).val[key := value])
    {
      SetFront(t2, key, value);
      ToFrontFacts(t2.keys, key);
      UnionUpdate(t1.items, t2.items, key, value);
      t2 := t2.Set(key, value).MoveToFront(key);
    }

    /** What a hit, a hint and an overwrite do to a resident entry; the first two pass the value
        that is already there. */
    method PutResident(key: Key, value: Bytes)
      requires Valid() && View().Resident(key)
      modifies this`t1, this`t2
      ensures Valid()
      ensures View() == Promote(old(View()), key).(val := old(View()).val[key := value])
    {
      if key in t1.items {
        PromoteT1(key, value);
      } else {
        PromoteT2(key, value);
      }
    }

    method PushT1(key: Key, value: Bytes)
      requires Valid() && !View().Resident(key)
      modifies this`t1
      ensures Valid()
      ensures View() == Admit1(old(View()), key, value)
    {
      SetFront(t1, key, value);
      ToFrontFacts(t1.keys, key);
      WithoutAbsent(t1.keys, key);
      UnionUpdate(t1.items, t2.items, key, value);
      t1 := t1.Set(key, value).MoveToFront(key);
    }

    method PushT2(key: Key, value: Bytes)
      requires Valid() && !View().Resident(key)
      modifies this`t2
      ensures Valid()
      ensures View() == old(View()).(t2 := [key] + old(View()).t2, val := old(View()).val[key := value])
    {
      SetFront(t2, key, value);
      ToFrontFacts(t2.keys, key);
      WithoutAbsent(t2.keys, key);
      UnionUpdate(t1.items, t2.items, key, value);
      t2 := t2.Set(key, value).MoveToFront(key);
    }

    method DropT1()
      requires Valid() && t1.keys != []
      modifies this`t1, this`evictions
      ensures Valid()
      ensures var s := old(View());
        View() == s.(t1 := Init(s.t1), val := s.val - {Last(s.t1)}, evictions := s.evictions + 1)
    {
      PopLastKeepsOk(t1);
      UnionWithout(t1.items, t2.items, Last(t1.keys));
      t1 := t1.PopLast();
      evictions := evictions + 1;
    }

    method DropT2()
      requires Valid() && t2.keys != []
      modifies this`t2, this`evictions
      ensures Valid()
      ensures var s := old(View());
        View() == s.(t2 := Init(s.t2), val := s.val - {Last(s.t2)}, evictions := s.evictions + 1)
    {
      PopLastKeepsOk(t2);
      UnionWithout(t1.items, t2.items, Last(t2.keys));
      t2 := t2.PopLast();
      evictions := evictions + 1;
    }

    method RetireT1(inB2: bool)
      requires Valid() && TakesT1(View(), inB2)
      modifies this`t1, this`b1, this`evictions
      ensures Valid() && View() == Replace(old(View()), inB2)
      ensures Ghosts() == Retire(old(View()), old(Ghosts()), inB2)
    {
      AppendedFacts(b1, Last(t1.keys));
      b1 := Appended(b1, Last(t1.keys));
      DropT1();
    }

    method RetireT2(inB2: bool)
      requires Valid() && !TakesT1(View(), inB2) && t2.keys != []
      modifies this`t2, this`b2, this`evictions
      ensures Valid() && View() == Replace(old(View()), inB2)
      ensures Ghosts() == Retire(old(View()), old(Ghosts()), inB2)
    {
      AppendedFacts(b2, Last(t2.keys));
      b2 := Appended(b2, Last(t2.keys));
      DropT2();
    }

    method ReplaceOne(inB2: bool)
      requires Valid()
      modifies this`t1, this`t2, this`b1, this`b2, this`evictions
      ensures Valid() && View() == Replace(old(View()), inB2)
      ensures Ghosts() == Retire(old(View()), old(Ghosts()), inB2)
    {
      if |t1.keys| != 0 && (|t1.keys| > p || (inB2 && |t1.keys| == p)) {
        RetireT1(inB2);
      } else if |t2.keys| != 0 {
        RetireT2(inB2);
      } else {
        evictions := evictions + 1;
      }
    }

    method PutFromB1(key: Key, value: Bytes)
      requires Valid() && !View().Resident(key) && key in b1
      modifies this
      ensures Valid()
      ensures View() == Admit2(GhostHit(old(View()), key), false, key, value)
      ensures Ghosts() == QueuesHit(old(View()), old(Ghosts()), key)
    {
      ghost var s := View();
      DistinctCount(b1);
      DistinctCount(b2);
      p := Min(cap, p + Max(1, |b2| / Max(1, |b1|)));
      assert View() == s.(p := TargetFor(s, key));
      ReplaceOne(false);
      ReplaceAddsNothing(s.(p := TargetFor(s, key)), false);
      RemovedFacts(b1, key);
      b1 := Without(b1, key);
      PushT2(key, value);
    }

    method PutFromB2(key: Key, value: Bytes)
      requires Valid() && !View().Resident(key) && key !in b1 && key in b2
      modifies this
      ensures Valid()
      ensures View() == Admit2(GhostHit(old(View()), key), true, key, value)
      ensures Ghosts() == QueuesHit(old(View()), old(Ghosts()), key)
    {
      ghost var s := View();
      DistinctCount(b1);
      DistinctCount(b2);
      p := Max(0, p - Max(1, |b1| / Max(1, |b2|)));
      assert View() == s.(p := TargetFor(s, key));
      ReplaceOne(true);
      ReplaceAddsNothing(s.(p := TargetFor(s, key)), true);
      RemovedFacts(b2, key);
      b2 := Without(b2, key);
      PushT2(key, value);
    }

    /** Forgets the newest ghost of `b1`, if there is one. */
    method ForgetB1()
      requires Valid()
      modifies this`b1
      ensures Valid() && View() == old(View()).(b1 := Forget(Elems(old(b1)), Newest(old(b1))))
      ensures b1 == WithoutNewest(old(b1))
    {
      RemovedFacts(b1, "");
      if b1 != [] {
        b1 := Init(b1);
      }
    }

    method ForgetB2()
      requires Valid()
      modifies this`b2
      ensures Valid() && View() == old(View()).(b2 := Forget(Elems(old(b2)), Newest(old(b2))))
      ensures b2 == WithoutNewest(old(b2))
    {
      RemovedFacts(b2, "");
      if b2 != [] {
        b2 := Init(b2);
      }
    }

    /** The evictions of a put whose key is nowhere in the directory. Popping from an empty `t1`
        raises KeyError, before anything has changed. */
    method MakeRoomFor(key: Key) returns (raised: bool)
      requires Valid() && !View().Resident(key)
      modifies this
      ensures Valid() && !View().Resident(key)
      ensures raised <==> cap == 0 && old(View()).t1 == []
      ensures if raised then View() == old(View())
              else View() == MakeRoom(old(View()), PickOf(old(View()), old(Ghosts())))
      ensures Ghosts() == QueuesMakingRoom(old(View()), old(Ghosts()))
    {
      DistinctCount(b1);
      DistinctCount(b2);
      raised := false;
      if |t1.keys| + |b1| >= cap {
        if |t1.keys| < cap {
          ForgetB1();
          ReplaceOne(false);
        } else if |t1.keys| == 0 {
          raised := true;
        } else {
          DropT1();
        }
      } else {
        var total := |t1.keys| + |t2.keys| + |b1| + |b2|;
        if total >= cap {
          if total == 2 * cap {
            ForgetB2();
          }
          ReplaceOne(false);
        }
      }
      MakeRoomAddsNothing(old(View()), PickOf(old(View()), old(Ghosts())));
    }

    /** A touch that leaves the value alone. */
    method Touch(key: Key)
      requires Valid() && View().Resident(key)
      modifies this`t1, this`t2
      ensures Valid() && View() == Promote(old(View()), key)
      ensures forall k :: View().Resident(k) <==> old(View()).Resident(k)
    {
      var value := if key in t1.items then t1.items[key] else t2.items[key];
      assert View().val[key := value] == View().val;
      PromoteResidents(View(), key);
      PutResident(key, value);
    }

    // ----------------------------------------------------------------
    // The cache operations.
    // ----------------------------------------------------------------

    method Get(key: Key) returns (r: Option<Bytes>)
      requires Valid()
      modifies this
      ensures Valid() && View() == OnGet(old(View()), key) && Ghosts() == old(Ghosts())
      ensures r == Lookup(old(View()).val, key)
    {
      if Holds(key) {
        r := Some(if key in t1.items then t1.items[key] else t2.items[key]);
        Touch(key);
        hits := hits + 1;
      } else {
        misses := misses + 1;
        r := None;
      }
    }
  
    /** A put that has to forget a ghost forgets the newest of its list. */
    method Put(key: Key, value: Bytes) returns (raised: bool)
      requires Valid()
      modifies this
      ensures Valid()
      ensures raised <==> cap == 0 && old(View()).t1 == [] && !old(View()).Known(key)
      ensures View() == if raised then old(View())
                        else OnPut(old(View()), key, value, PickOf(old(View()), old(Ghosts())))
      ensures Ghosts() == QueuesPut(old(View()), old(Ghosts()), key)
    {
      raised := false;
      if Holds(key) {
        PutResident(key, value);
      } else if key in b1 {
        PutFromB1(key, value);
      } else if key in b2 {
        PutFromB2(key, value);
      } else {
        raised := MakeRoomFor(key);
        if !raised {
          PushT1(key, value);
        }
      }
    }

    method EraseEntry(key: Key)
      requires Valid()
      modifies this`t1, this`t2
      ensures Valid()
      ensures View() == OnErase(old(View()), key).(b1 := Elems(b1), b2 := Elems(b2))
    {
      PopKeepsOk(t1, key);
      PopKeepsOk(t2, key);
      UnionWithout(t1.items, t2.items, key);
      t1 := t1.Pop(key);
      t2 := t2.Pop(key);
    }

    method Erase(key: Key)
      requires Valid()
      modifies this
      ensures Valid() && View() == OnErase(old(View()), key)
      ensures Ghosts() == Queues(Without(old(b1), key), Without(old(b2), key))
    {
      EraseEntry(key);
      RemovedFacts(b1, key);
      RemovedFacts(b2, key);
      b1, b2 := Without(b1, key), Without(b2, key);
    }

    method ShrinkOnce()
      requires Valid() && View().Size() > 0
      modifies this`t1, this`t2, this`evictions
      ensures Valid() && View() == ShrinkByOne(old(View()))
    {
      if |t1.keys| != 0 {
        DropT1();
      } else {
        DropT2();
      }
    }

    method ShrinkTowards(c: nat)
      requires Valid() && View().Size() > c
      modifies this`t1, this`t2, this`evictions
      ensures Valid() && View().Size() == old(View()).Size() - 1
      ensures OnResize(View(), c) == OnResize(old(View()), c)
    {
      ShrinkByOneTowards(View(), c);
      ShrinkOnce();
    }

    method Resize(c: nat)
      requires Valid()
      modifies this
      ensures Valid() && View() == OnResize(old(View()), c) && Ghosts() == old(Ghosts())
    {
      cap := c;
      while |t1.keys| + |t2.keys| > cap
        invariant Valid() && cap == c && b1 == old(b1) && b2 == old(b2)
        invariant OnResize(View(), c) == OnResize(old(View()), c)
        decreases View().Size()
      {
        ShrinkTowards(c);
      }
      ResizeDone(View());
    }

    method Clear()
      requires Valid()
      modifies this
      ensures Valid() && View() == Empty(old(cap)) && Ghosts() == Queues([], [])
    {
      t1, t2, b1, b2 := EMPTY, EMPTY, [], [];
      p, hits, misses, evictions := 0, 0, 0, 0;
    }

    /** Moves the resident keys to the head of `t2` and finds the key to pre-warm, if any. */
    method PromoteHinted(predictions: seq<Prediction>) returns (coldTop: Option<Key>)
      requires Valid()
      modifies this`t1, this`t2
      ensures Valid() && View() == OnHint(old(View()), AppIds(predictions))
      ensures coldTop == FirstCold(old(View()), predictions)
    {
      coldTop := None;
      for i := 0 to |predictions|
        invariant Valid()
        invariant forall k :: View().Resident(k) <==> old(View()).Resident(k)
        invariant OnHint(View(), AppIds(predictions)[i..]) == OnHint(old(View()), AppIds(predictions))
        invariant FirstCold(old(View()), predictions)
          == if coldTop.Some? then coldTop else FirstCold(old(View()), predictions[i..])
      {
        var k := predictions[i].appId;
        assert AppIds(predictions)[i..][1..] == AppIds(predictions)[i + 1..];
        assert predictions[i..][1..] == predictions[i + 1..];
        if Holds(k) {
          Touch(k);
        } else if coldTop.None? && predictions[i].score >= PRELOAD_SCORE_THRESHOLD {
          coldTop := Some(k);
        }
      }
    }

    /** The pre-warm raises KeyError exactly if its put does; the promotions then stay. */
    method HintFuture(predictions: seq<Prediction>) returns (raised: bool)
      requires Valid()
      modifies this
      ensures Valid()
      ensures var s, h, cold := old(View()), OnHint(old(View()), AppIds(predictions)), FirstCold(old(View()), predictions);
        && (raised <==> s.cap == 0 && cold.Some? && h.t1 == [] && !h.Known(cold.value))
        && View() == (if raised then h else PreWarm(s, predictions, PickOf(h, old(Ghosts()))))
        && Ghosts() == if cold.Some? then QueuesPut(h, old(Ghosts()), cold.value) else old(Ghosts())
    {
      raised := false;
      var coldTop := PromoteHinted(predictions);
      if coldTop.Some? {
        raised := Put(coldTop.value, PRELOAD_MARKER);
      }
    }
  }
}
