/** The C++ ARC and ContextARC caches: two indexed linked lists and two hash sets of ghosts, all
    updated in place. */
module ArcCache {
  import opened Sequences
  import opened CacheTypes
  import opened EntryLists
  import opened ArcSpec

  class ArcCache {
    const t1: EntryList
    const t2: EntryList
    var ghostB1: set<Key>
    var ghostB2: set<Key>
    var capacity: nat
    var p: nat
    var hits: nat
    var misses: nat
    var evictions: nat

    ghost predicate Valid()
      reads this, t1, t2
    {
      && t1 != t2 && t1.Valid() && t2.Valid()
      && (forall k :: k in t1.keys ==> k !in t2.keys)
    }

    /** The state of the abstract machine that the fields represent. */
    ghost function View(): Arc
      reads this, t1, t2
    {
      Arc(t1.keys, t2.keys, ghostB1, ghostB2, t1.val + t2.val, capacity, p, hits, misses, evictions)
    }

    constructor (cap: nat)
      ensures Valid() && View() == Empty(cap) && fresh(t1) && fresh(t2)
    {
      t1 := new EntryList();
      t2 := new EntryList();
      ghostB1, ghostB2 := {}, {};
      capacity, p, hits, misses, evictions := cap, 0, 0, 0, 0;
    }

    // ----------------------------------------------------------------
    // Steps that the operations share.
    // ----------------------------------------------------------------

    predicate Holds(key: Key)
      requires Valid()
      reads this, t1, t2
      ensures Holds(key) <==> View().Resident(key)
      ensures Holds(key) <==> key in View().val
    {
      t1.Has(key) || t2.Has(key)
    }

    /** The move of an entry of `t1` to the head of `t2` that a hit and a hint share. */
    method MoveToT2(key: Key)
      requires Valid() && key in t1.keys
      modifies t1, t2
      ensures Valid() && View() == Promote(old(View()), key)
    {
      var value := t1.ValueOf(key);
      UnionMove(t1.val, t2.val, key);
      t1.Erase(key);
      t2.PushFront(key, value);
    }

    /** A touch of a resident entry, and its value. */
    method Touch(key: Key) returns (value: Bytes)
      requires Valid() && View().Resident(key)
      modifies t1, t2
      ensures Valid() && View() == Promote(old(View()), key)
      ensures Lookup(old(View()).val, key) == Some(value)
    {
      if t1.Has(key) {
        value := t1.ValueOf(key);
        MoveToT2(key);
      } else {
        value := t2.ValueOf(key);
        t2.MoveToFront(key);
      }
    }

    /** Evicts the least recent entry of `t1`. */
    method DropT1()
      requires Valid() && t1.keys != []
      modifies this`evictions, t1
      ensures Valid()
      ensures var s := old(View());
        View() == s.(t1 := Init(s.t1), val := s.val - {Last(s.t1)}, evictions := s.evictions + 1)
    {
      UnionWithout(t1.val, t2.val, t1.Back());
      t1.PopBack();
      evictions := evictions + 1;
    }

    /** Evicts the least recent entry of `t2`. */
    method DropT2()
      requires Valid() && t2.keys != []
      modifies this`evictions, t2
      ensures Valid()
      ensures var s := old(View());
        View() == s.(t2 := Init(s.t2), val := s.val - {Last(s.t2)}, evictions := s.evictions + 1)
    {
      UnionWithout(t1.val, t2.val, t2.Back());
      t2.PopBack();
      evictions := evictions + 1;
    }

    method RetireT1(inB2: bool)
      requires Valid() && TakesT1(View(), inB2)
      modifies this`ghostB1, this`evictions, t1
      ensures Valid() && View() == Replace(old(View()), inB2)
    {
      ghostB1 := ghostB1 + {t1.Back()};
      DropT1();
    }

    method RetireT2(inB2: bool)
      requires Valid() && !TakesT1(View(), inB2) && t2.keys != []
      modifies this`ghostB2, this`evictions, t2
      ensures Valid() && View() == Replace(old(View()), inB2)
    {
      ghostB2 := ghostB2 + {t2.Back()};
      DropT2();
    }

    /** Evicts the back of `t1` or of `t2` and remembers its key as a ghost. */
    method ReplaceOne(inB2: bool)
      requires Valid()
      modifies this`ghostB1, this`ghostB2, this`evictions, t1, t2
      ensures Valid() && View() == Replace(old(View()), inB2)
    {
      if t1.Size() != 0 && (t1.Size() > p || (inB2 && t1.Size() == p)) {
        RetireT1(inB2);
      } else if t2.Size() != 0 {
        RetireT2(inB2);
      } else {
        evictions := evictions + 1;
      }
    }

    // ----------------------------------------------------------------
    // The cache operations.
    // ----------------------------------------------------------------

    method CountHit()
      requires Valid()
      modifies this`hits
      ensures Valid() && View() == old(View()).(hits := old(hits) + 1)
    {
      hits := hits + 1;
    }

    method Get(key: Key) returns (r: Option<Bytes>)
      requires Valid()
      modifies this, t1, t2
      ensures Valid() && View() == OnGet(old(View()), key)
      ensures r == Lookup(old(View()).val, key)
    {
      if Holds(key) {
        var value := Touch(key);
        CountHit();
        r := Some(value);
      } else {
        misses := misses + 1;
        r := None;
      }
    }

    method PutResident(key: Key, value: Bytes)
      requires Valid() && View().Resident(key)
      modifies t1, t2
      ensures Valid()
      ensures View() == Promote(old(View()), key).(val := old(View()).val[key := value])
    {
      UnionUpdate(t1.val, t2.val, key, value);
      if t1.Has(key) {
        t1.Erase(key);
        t2.PushFront(key, value);
      } else {
        t2.Assign(key, value);
        t2.MoveToFront(key);
      }
    }

    /** Pushes a key that is not resident on `t2`. */
    method PushT2(key: Key, value: Bytes)
      requires Valid() && !View().Resident(key)
      modifies t2
      ensures Valid()
      ensures View() == old(View()).(t2 := [key] + old(t2.keys), val := old(View()).val[key := value])
    {
      UnionUpdate(t1.val, t2.val, key, value);
      t2.PushFront(key, value);
    }

    method PutFromB1(key: Key, value: Bytes)
      requires Valid() && !View().Resident(key) && key in ghostB1
      modifies this, t1, t2
      ensures Valid()
      ensures View() == Admit2(GhostHit(old(View()), key), false, key, value)
    {
      ghost var s := View();
      p := Min(capacity, p + Max(1, |ghostB2| / Max(1, |ghostB1|)));
      assert View() == s.(p := TargetFor(s, key));
      ReplaceOne(false);
      ReplaceAddsNothing(s.(p := TargetFor(s, key)), false);
      ghostB1 := ghostB1 - {key};
      PushT2(key, value);
    }

    method PutFromB2(key: Key, value: Bytes)
      requires Valid() && !View().Resident(key) && key !in ghostB1 && key in ghostB2
      modifies this, t1, t2
      ensures Valid()
      ensures View() == Admit2(GhostHit(old(View()), key), true, key, value)
    {
      ghost var s := View();
      var delta := Max(1, |ghostB1| / Max(1, |ghostB2|));
      p := if p > delta then p - delta else 0;
      assert View() == s.(p := TargetFor(s, key));
      ReplaceOne(true);
      ReplaceAddsNothing(s.(p := TargetFor(s, key)), true);
      ghostB2 := ghostB2 - {key};
      PushT2(key, value);
    }

    /** Forgets a ghost, if there is one; `*begin()` of a hash set may be any of its elements. */
    method ForgetB1() returns (ghost pick: Key)
      requires Valid()
      modifies this`ghostB1
      ensures Valid() && View() == old(View()).(b1 := Forget(old(ghostB1), pick))
    {
      pick := "";
      if ghostB1 != {} {
        var victim :| victim in ghostB1;
        ghostB1 := ghostB1 - {victim};
        pick := victim;
      }
    }

    method ForgetB2() returns (ghost pick: Key)
      requires Valid()
      modifies this`ghostB2
      ensures Valid() && View() == old(View()).(b2 := Forget(old(ghostB2), pick))
    {
      pick := "";
      if ghostB2 != {} {
        var victim :| victim in ghostB2;
        ghostB2 := ghostB2 - {victim};
        pick := victim;
      }
    }

    /** The evictions of a put whose key is nowhere in the directory. */
    method MakeRoomFor(key: Key) returns (ghost pick: Key)
      requires Valid() && !View().Resident(key)
      modifies this, t1, t2
      ensures Valid() && !View().Resident(key)
      ensures View() == MakeRoom(old(View()), pick)
    {
      pick := key;
      if t1.Size() + |ghostB1| >= capacity {
        if t1.Size() < capacity {
          pick := ForgetB1();
          ReplaceOne(false);
        } else if t1.Size() != 0 {
          DropT1();
        }
      } else {
        var total := t1.Size() + t2.Size() + |ghostB1| + |ghostB2|;
        if total >= capacity {
          if total == 2 * capacity {
            pick := ForgetB2();
          }
          ReplaceOne(false);
        }
      }
      MakeRoomAddsNothing(old(View()), pick);
    }

    method Put(key: Key, value: Bytes) returns (ghost pick: Key)
      requires Valid()
      modifies this, t1, t2
      ensures Valid() && View() == OnPut(old(View()), key, value, pick)
    {
      pick := key;
      if Holds(key) {
        PutResident(key, value);
      } else if key in ghostB1 {
        PutFromB1(key, value);
      } else if key in ghostB2 {
        PutFromB2(key, value);
      } else {
        pick := MakeRoomFor(key);
        UnionUpdate(t1.val, t2.val, key, value);
        t1.PushFront(key, value);
      }
    }

    method EraseEntry(key: Key)
      requires Valid()
      modifies t1, t2
      ensures Valid()
      ensures View() == OnErase(old(View()), key).(b1 := ghostB1, b2 := ghostB2)
    {
      UnionWithout(t1.val, t2.val, key);
      if t1.Has(key) {
        t1.Erase(key);
      } else if t2.Has(key) {
        t2.Erase(key);
      }
    }

    method Erase(key: Key)
      requires Valid()
      modifies this, t1, t2
      ensures Valid() && View() == OnErase(old(View()), key)
    {
      EraseEntry(key);
      ghostB1, ghostB2 := ghostB1 - {key}, ghostB2 - {key};
    }

    method ShrinkOnce()
      requires Valid() && View().Size() > 0
      modifies this`evictions, t1, t2
      ensures Valid() && View() == ShrinkByOne(old(View()))
    {
      if t1.Size() != 0 {
        DropT1();
      } else {
        DropT2();
      }
    }

    method Resize(c: nat)
      requires Valid()
      modifies this, t1, t2
      ensures Valid() && View() == OnResize(old(View()), c)
    {
      capacity := c;
      while t1.Size() + t2.Size() > capacity
        invariant Valid() && capacity == c
        invariant OnResize(View(), c) == OnResize(old(View()), c)
        decreases View().Size()
      {
        ShrinkByOneTowards(View(), c);
        ShrinkOnce();
      }
      ResizeDone(View());
    }

    method Clear()
      requires Valid()
      modifies this, t1, t2
      ensures Valid() && View() == Empty(old(capacity))
    {
      t1.Clear();
      t2.Clear();
      ghostB1, ghostB2 := {}, {};
      hits, misses, evictions, p := 0, 0, 0, 0;
    }

    /** The override of ContextARC; plain ARC ignores hints. */
    method HintFuture(predictions: seq<Prediction>)
      requires Valid()
      modifies t1, t2
      ensures Valid() && View() == OnHint(old(View()), AppIds(predictions))
    {
      for i := 0 to |predictions|
        invariant Valid()
        invariant OnHint(View(), AppIds(predictions)[i..]) == OnHint(old(View()), AppIds(predictions))
      {
        var k := predictions[i].appId;
        assert AppIds(predictions)[i..][1..] == AppIds(predictions)[i + 1..];
        if Holds(k) {
          var _ := Touch(k);
        }
      }
    }
  }
}
