/** Scan resistance of ARC, and the protection that ContextARC's hints buy. */
module ArcScan {
  import opened Sequences
  import opened CacheTypes
  import opened ArcSpec
  import opened ArcInvariants
  import opened ArcAccounting

  /** How far `t1` is from being the list that `replace` takes its victims from. */
  function Deficit(s: Arc): nat {
    Max(0, s.p + 1 - |s.t1|)
  }

  /** A scan: puts of distinct keys, none of them anywhere in the directory. */
  ghost predicate FreshScan(s: Arc, ops: seq<Op>) {
    && (forall i :: 0 <= i < |ops| ==> ops[i].Put? && !s.Known(ops[i].key))
    && (forall i, j :: 0 <= i < j < |ops| ==> ops[i].key != ops[j].key)
  }

  lemma FreshPutKeepsT2(s: Arc, k: Key, v: Bytes, pick: Key)
    requires Shape(s) && !s.Known(k)
    ensures var r := OnPut(s, k, v, pick);
      && r.p == s.p && r.cap == s.cap && r.t2 <= s.t2
      && (|s.t2| - |r.t2|) + Deficit(r) <= Deficit(s)
  {
  }

  lemma FreshPutFrame(s: Arc, k: Key, v: Bytes, pick: Key)
    requires Shape(s) && !s.Known(k)
    ensures var r := OnPut(s, k, v, pick);
      && (forall j :: r.Known(j) ==> s.Known(j) || j == k)
      && (forall j :: j in r.val && j != k ==> j in s.val && r.val[j] == s.val[j])
  {
    MakeRoomKeepsShape(s, pick);
  }

  lemma {:induction false} ScanFrame(s: Arc, ops: seq<Op>)
    requires Shape(s) && FreshScan(s, ops)
    ensures var r := Run(s, ops);
      && Shape(r)
      && (forall j :: r.Known(j) ==> s.Known(j) || exists i :: 0 <= i < |ops| && ops[i].key == j)
      && (forall k :: k in r.val && s.Known(k) ==> k in s.val && r.val[k] == s.val[k])
  {
    if ops != [] {
      var q, o := Run(s, Init(ops)), Last(ops);
      ScanFrame(s, Init(ops));
      StepKeepsShape(q, o);
      FreshPutFrame(q, o.key, o.value, o.pick);
    }
  }

  lemma ScanPutIsFresh(s: Arc, ops: seq<Op>)
    requires Shape(s) && FreshScan(s, ops) && ops != []
    ensures !Run(s, Init(ops)).Known(Last(ops).key)
  {
    ScanFrame(s, Init(ops));
  }

  /** A scan of any length leaves the target alone and costs `t2` at most `Deficit(s)` entries, all
      from its least recent end; what survives keeps its value. */
  lemma {:induction false} ScanResistance(s: Arc, ops: seq<Op>)
    requires Shape(s) && FreshScan(s, ops)
    ensures var r := Run(s, ops);
      && Shape(r) && r.p == s.p && r.cap == s.cap
      && r.t2 <= s.t2 && (|s.t2| - |r.t2|) + Deficit(r) <= Deficit(s)
      && (forall k :: k in r.t2 ==> k in s.val && r.val[k] == s.val[k])
  {
    ScanFrame(s, ops);
    if ops != [] {
      var q, o := Run(s, Init(ops)), Last(ops);
      ScanResistance(s, Init(ops));
      ScanPutIsFresh(s, ops);
      FreshPutKeepsT2(q, o.key, o.value, o.pick);
    }
  }

  lemma FreshPutCost(s: Arc, k: Key, v: Bytes, pick: Key)
    requires Good(s) && s.Size() == s.cap && !s.Known(k)
    ensures var r := OnPut(s, k, v, pick);
      && r.Size() == r.cap
      && |s.t2| - |r.t2| == (if Deficit(s) > 0 && s.t2 != [] then 1 else 0)
      && (s.t2 != [] ==> Deficit(r) == Max(0, Deficit(s) - 1))
  {
    PutKeepsFull(s, k, v, pick);
    PutKeepsBounds(s, k, v, pick);
    PutAccounting(s, k, v, pick);
    ReplaceFindsAVictim(s, k);
  }

  /** In a full cache the bound of `ScanResistance` is what a scan costs: one entry of `t2` for
      each put, until the deficit is made up or `t2` is empty. */
  lemma {:induction false} ScanCost(s: Arc, ops: seq<Op>)
    requires Good(s) && s.Size() == s.cap && FreshScan(s, ops)
    ensures var r := Run(s, ops);
      && Good(r) && r.Size() == r.cap
      && |s.t2| - |r.t2| == Min(|s.t2|, Min(|ops|, Deficit(s)))
      && (r.t2 != [] ==> Deficit(r) == Max(0, Deficit(s) - |ops|))
  {
    if ops != [] {
      var q, o := Run(s, Init(ops)), Last(ops);
      ScanCost(s, Init(ops));
      ScanPutIsFresh(s, ops);
      FreshPutCost(q, o.key, o.value, o.pick);
      StepKeepsShape(q, o);
      StepKeepsBounds(q, o);
      StepKeepsFull(q, o);
      StepCapacity(q, o);
    }
  }

  // ------------------------------------------------------------------
  // Hints.
  // ------------------------------------------------------------------

  /** The hinted keys that are resident, in the order of the predictions. */
  function Residents(s: Arc, ks: seq<Key>): seq<Key> {
    if ks == [] then []
    else (if s.Resident(ks[0]) then [ks[0]] else []) + Residents(s, ks[1..])
  }

  lemma {:induction false} ResidentsFacts(s: Arc, ks: seq<Key>)
    ensures forall k :: k in Residents(s, ks) <==> k in ks && s.Resident(k)
  {
    if ks != [] {
      ResidentsFacts(s, ks[1..]);
    }
  }

  lemma {:induction false} SameResidents(s: Arc, r: Arc, ks: seq<Key>)
    requires forall k :: s.Resident(k) <==> r.Resident(k)
    ensures Residents(s, ks) == Residents(r, ks)
  {
    if ks != [] {
      SameResidents(s, r, ks[1..]);
    }
  }

  lemma {:induction false} HintMovesToFront(s: Arc, ks: seq<Key>)
    requires Shape(s)
    ensures OnHint(s, ks).t2 == AllToFront(s.t2, Residents(s, ks))
    decreases |ks|
  {
    if ks != [] {
      var r := Promote(s, ks[0]);
      PromoteKeepsShape(s, ks[0]);
      SameResidents(s, r, ks[1..]);
      HintMovesToFront(r, ks[1..]);
      if s.Resident(ks[0]) {
        if ks[0] !in s.t2 {
          WithoutAbsent(s.t2, ks[0]);
        }
        var all := Residents(s, ks);
        assert all[0] == ks[0] && all[1..] == Residents(s, ks[1..]);
      } else {
        assert Residents(s, ks) == Residents(s, ks[1..]);
      }
    }
  }

  /** A hint changes nothing but the order: the hinted residents come to the head of `t2`, in
      reverse order of their last mention, ahead of the rest of `t2` in its old order. */
  lemma HintPutsResidentsFirst(s: Arc, ks: seq<Key>)
    requires Shape(s)
    ensures var r, hot := OnHint(s, ks), Residents(s, ks);
      && r == s.(t1 := r.t1, t2 := r.t2)
      && (forall k :: r.Resident(k) <==> s.Resident(k)) && r.Size() == s.Size()
      && r.t2 == ByLastMention(hot) + Excluding(s.t2, hot)
  {
    HintKeepsShape(s, ks);
    HintMovesToFront(s, ks);
    AllToFrontFacts(s.t2, Residents(s, ks));
  }

  /** Hinted keys survive any scan that `t2` is long enough to absorb behind them. */
  lemma HintsProtect(s: Arc, ks: seq<Key>, ops: seq<Op>)
    requires Shape(s)
    requires var h := OnHint(s, ks);
      FreshScan(h, ops) && |ByLastMention(Residents(s, ks))| + Deficit(h) <= |h.t2|
    ensures var r := Run(OnHint(s, ks), ops);
      forall k :: k in ks && s.Resident(k) ==> k in r.t2 && Lookup(r.val, k) == Some(s.val[k])
  {
    var h, hot := OnHint(s, ks), Residents(s, ks);
    HintPutsResidentsFirst(s, ks);
    HintKeepsShape(s, ks);
    ScanResistance(h, ops);
    ResidentsFacts(s, ks);
    ByLastMentionFacts(hot);
    PrefixHolds(h.t2, ByLastMention(hot), Run(h, ops).t2);
  }

  /** In a full cache the exact condition, for every scan: no resident was hinted, or the hinted
      residents and what the scan costs fit in `t2`. With less room some hinted key is evicted. */
  lemma HintsProtectExactly(s: Arc, ks: seq<Key>, ops: seq<Op>)
    requires Good(s) && s.Size() == s.cap && FreshScan(OnHint(s, ks), ops)
    ensures var h := OnHint(s, ks);
      (forall k :: k in ks && s.Resident(k) ==> k in Run(h, ops).t2)
      <==> Residents(s, ks) == [] || |ByLastMention(Residents(s, ks))| + Min(|ops|, Deficit(h)) <= |h.t2|
  {
    var h, hot := OnHint(s, ks), Residents(s, ks);
    HintPutsResidentsFirst(s, ks);
    HintKeepsShape(s, ks);
    ResidentsFacts(s, ks);
    ByLastMentionFacts(hot);
    StepKeepsFull(s, Hint(ks));
    StepKeepsBounds(s, Hint(ks));
    ScanCost(h, ops);
    ScanResistance(h, ops);
    PrefixHolds(h.t2, ByLastMention(hot), Run(h, ops).t2);
    assert |ByLastMention(hot)| == 0 <==> hot == [] by {
      assert hot != [] ==> hot[0] in ByLastMention(hot);
    }
  }
}
