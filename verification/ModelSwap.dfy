/** The model-swap manager: which resident models to evict for a RAM budget, and which predicted
    models to bring in. */
module ModelSwap {
  import opened Sequences
  import opened Greedy

  type ModelId = string

  datatype ModelSlot = ModelSlot(id: ModelId, bytes: nat, resident: bool, lastUsed: real, priority: int)

  type Slots = map<ModelId, ModelSlot>

  ghost predicate Keyed(slots: Slots) {
    forall id :: id in slots ==> slots[id].id == id
  }

  function Residents(slots: Slots): set<ModelSlot> {
    set id | id in slots && slots[id].resident :: slots[id]
  }

  function Bytes(m: ModelSlot): nat { m.bytes }

  function Importance(m: ModelSlot): Rank { Rank(m.priority, m.lastUsed) }

  ghost function ResidentBytes(slots: Slots): nat {
    SumOf(Residents(slots), Bytes)
  }

  // ------------------------------------------------------------------
  // Evictions.
  // ------------------------------------------------------------------

  function EvictionPlan(ordered: seq<ModelSlot>, total: nat, budget: nat): seq<ModelSlot> {
    Take(ordered, Bytes, total - budget)
  }

  /** Evicting the planned models always meets the budget, and without the last of them it would
      not be met. */
  lemma EvictionsMeetTheBudget(slots: Slots, ordered: seq<ModelSlot>, budget: nat)
    requires IsRanking(ordered, Residents(slots), Importance)
    ensures var p := EvictionPlan(ordered, ResidentBytes(slots), budget);
      && Distinct(p) && Elems(p) <= Residents(slots)
      && SumOf(Residents(slots) - Elems(p), Bytes) <= budget
      && (p != [] ==> SumOf(Residents(slots) - Elems(Init(p)), Bytes) > budget)
  {
    var p := TakeMeets(Residents(slots), ordered, Bytes, budget);
  }

  /** Any other set of residents whose eviction meets the budget contains one that matters at least
      as much, by priority and then by last use, as the last planned one. */
  lemma EvictionsAreBottleneckOptimal(slots: Slots, ordered: seq<ModelSlot>, budget: nat, chosen: set<ModelSlot>)
    returns (m: ModelSlot)
    requires IsRanking(ordered, Residents(slots), Importance)
    requires EvictionPlan(ordered, ResidentBytes(slots), budget) != []
    requires chosen <= Residents(slots) && SumOf(Residents(slots) - chosen, Bytes) <= budget
    ensures m in chosen
    ensures var l := Last(EvictionPlan(ordered, ResidentBytes(slots), budget));
      l.priority < m.priority || (l.priority == m.priority && l.lastUsed <= m.lastUsed)
  {
    SumSubset(chosen, Residents(slots), Bytes);
    m := Bottleneck(ordered, Bytes, Importance, ResidentBytes(slots) - budget, chosen);
  }

  /** Every model that is evicted matters less than each that stays, or as much and was last used no
      later. */
  lemma EvictsTheLeastImportant(slots: Slots, ordered: seq<ModelSlot>, budget: nat, l: ModelSlot, m: ModelSlot)
    requires IsRanking(ordered, Residents(slots), Importance)
    requires l in EvictionPlan(ordered, ResidentBytes(slots), budget)
    requires m in Residents(slots) && m !in EvictionPlan(ordered, ResidentBytes(slots), budget)
    ensures l.priority < m.priority || (l.priority == m.priority && l.lastUsed <= m.lastUsed)
  {
    assert m in Elems(ordered);
    TakenRankFirst(ordered, Bytes, Importance, ResidentBytes(slots) - budget, l, m);
  }

  // ------------------------------------------------------------------
  // Preloads.
  // ------------------------------------------------------------------

  /** The predicted models that are known and not resident, in order, repeats included. */
  function Wanted(slots: Slots, predicted: seq<ModelId>): seq<ModelId> {
    if predicted == [] then []
    else
      (if predicted[0] in slots && !slots[predicted[0]].resident then [predicted[0]] else [])
      + Wanted(slots, predicted[1..])
  }

  function SizeOf(slots: Slots, id: ModelId): nat {
    if id in slots then slots[id].bytes else 0
  }

  function BytesOf(slots: Slots, ids: seq<ModelId>): nat {
    if ids == [] then 0 else SizeOf(slots, ids[0]) + BytesOf(slots, ids[1..])
  }

  /** The wanted models up to the first that does not fit any more. */
  function Fitting(slots: Slots, wanted: seq<ModelId>, used: nat, budget: nat): seq<ModelId> {
    if wanted == [] || used + SizeOf(slots, wanted[0]) > budget then []
    else [wanted[0]] + Fitting(slots, wanted[1..], used + SizeOf(slots, wanted[0]), budget)
  }

  function PreloadPlan(slots: Slots, predicted: seq<ModelId>, used: nat, budget: nat): seq<ModelId> {
    Fitting(slots, Wanted(slots, predicted), used, budget)
  }

  lemma BytesOfCons(slots: Slots, id: ModelId, ids: seq<ModelId>)
    ensures BytesOf(slots, [id] + ids) == SizeOf(slots, id) + BytesOf(slots, ids)
  {
    assert ([id] + ids)[1..] == ids;
  }

  /** The plan is the longest run of wanted models that fits. */
  lemma {:induction false} FittingIsLongest(slots: Slots, wanted: seq<ModelId>, used: nat, budget: nat)
    ensures var p := Fitting(slots, wanted, used, budget);
      && p <= wanted
      && (p != [] ==> used + BytesOf(slots, p) <= budget)
      && (p != wanted ==> used + BytesOf(slots, wanted[..|p| + 1]) > budget)
  {
    if wanted != [] {
      var id := wanted[0];
      var u := used + SizeOf(slots, id);
      if u <= budget {
        var q := Fitting(slots, wanted[1..], u, budget);
        FittingIsLongest(slots, wanted[1..], u, budget);
        BytesOfCons(slots, id, q);
        if q != wanted[1..] {
          BytesOfCons(slots, id, wanted[1..][..|q| + 1]);
          assert wanted[..|q| + 2] == [id] + wanted[1..][..|q| + 1];
        }
      } else {
        BytesOfCons(slots, id, []);
        assert wanted[..1] == [id] + [];
      }
    }
  }

  lemma {:induction false} WantedConcat(slots: Slots, a: seq<ModelId>, b: seq<ModelId>)
    ensures Wanted(slots, a + b) == Wanted(slots, a) + Wanted(slots, b)
  {
    if a == [] {
      assert a + b == b;
    } else {
      var first := if a[0] in slots && !slots[a[0]].resident then [a[0]] else [];
      WantedConcat(slots, a[1..], b);
      assert (a + b)[0] == a[0] && (a + b)[1..] == a[1..] + b;
      assert first + (Wanted(slots, a[1..]) + Wanted(slots, b)) == (first + Wanted(slots, a[1..])) + Wanted(slots, b);
    }
  }

  predicate IsWanted(slots: Slots, id: ModelId) {
    id in slots && !slots[id].resident
  }

  /** `at` gives the places of the wanted models in `predicted`, all of them and in order. */
  ghost predicate Places(slots: Slots, predicted: seq<ModelId>, at: seq<nat>) {
    && (forall j :: 0 <= j < |at| ==> at[j] < |predicted| && IsWanted(slots, predicted[at[j]]))
    && (forall i, j :: 0 <= i < j < |at| ==> at[i] < at[j])
    && (forall i :: 0 <= i < |predicted| && IsWanted(slots, predicted[i]) ==> i in at)
  }

  ghost predicate ReadAt(ids: seq<ModelId>, predicted: seq<ModelId>, at: seq<nat>) {
    |ids| <= |at| && forall j :: 0 <= j < |ids| ==> at[j] < |predicted| && ids[j] == predicted[at[j]]
  }

  lemma PlacesSnoc(slots: Slots, predicted: seq<ModelId>, id: ModelId, at: seq<nat>)
    requires Places(slots, predicted, at)
    ensures Places(slots, predicted + [id], if IsWanted(slots, id) then at + [|predicted|] else at)
  {
    var all, r := predicted + [id], at + [|predicted|];
    assert r[|at|] == |predicted|;
    assert forall i :: 0 <= i < |predicted| ==> all[i] == predicted[i];
    forall i | 0 <= i < |all| && IsWanted(slots, all[i]) ensures i in if IsWanted(slots, id) then r else at {
      if i < |predicted| {
        assert i in at;
      }
    }
  }

  lemma WantedSnoc(slots: Slots, a: seq<ModelId>, id: ModelId)
    ensures Wanted(slots, a + [id]) == Wanted(slots, a) + if IsWanted(slots, id) then [id] else []
  {
    WantedConcat(slots, a, [id]);
    var none: seq<ModelId> := [];
    assert [id][1..] == none && Wanted(slots, none) == none;
    assert Wanted(slots, [id]) == if IsWanted(slots, id) then [id] else [];
  }

  lemma ReadAtSnoc(ids: seq<ModelId>, predicted: seq<ModelId>, id: ModelId, at: seq<nat>)
    requires ReadAt(ids, predicted, at) && |ids| == |at|
    ensures ReadAt(ids, predicted + [id], at)
    ensures ReadAt(ids + [id], predicted + [id], at + [|predicted|])
  {
  }

  lemma ReadAtPrefix(p: seq<ModelId>, ids: seq<ModelId>, predicted: seq<ModelId>, at: seq<nat>)
    requires ReadAt(ids, predicted, at) && p <= ids
    ensures ReadAt(p, predicted, at)
    ensures |p| < |ids| ==> ids[..|p| + 1] == p + [predicted[at[|p|]]]
  {
    if |p| < |ids| {
      PrefixSnoc(p, ids);
    }
  }

  ghost predicate PlacesOfWanted(slots: Slots, predicted: seq<ModelId>, at: seq<nat>) {
    && Places(slots, predicted, at)
    && |Wanted(slots, predicted)| == |at| && ReadAt(Wanted(slots, predicted), predicted, at)
  }

  lemma NoPlaces(slots: Slots)
    ensures PlacesOfWanted(slots, [], [])
  {
  }

  lemma OneMorePlace(slots: Slots, predicted: seq<ModelId>, id: ModelId, at: seq<nat>)
    requires PlacesOfWanted(slots, predicted, at)
    ensures PlacesOfWanted(slots, predicted + [id], if IsWanted(slots, id) then at + [|predicted|] else at)
  {
    WantedSnoc(slots, predicted, id);
    PlacesSnoc(slots, predicted, id, at);
    ReadAtSnoc(Wanted(slots, predicted), predicted, id, at);
  }

  lemma {:induction false} WantedPlaces(slots: Slots, predicted: seq<ModelId>) returns (at: seq<nat>)
    ensures PlacesOfWanted(slots, predicted, at)
  {
    at := [];
    if predicted == [] {
      NoPlaces(slots);
    } else {
      var before, id := Init(predicted), Last(predicted);
      assert before + [id] == predicted;
      at := WantedPlaces(slots, before);
      OneMorePlace(slots, before, id, at);
      at := if IsWanted(slots, id) then at + [|before|] else at;
    }
  }

  /** The plan reads the wanted models off in order, from the first; and where it ends before the
      last, the next one would not have fitted. */
  lemma PlanReadsOff(slots: Slots, predicted: seq<ModelId>, used: nat, budget: nat) returns (at: seq<nat>)
    ensures Places(slots, predicted, at)
    ensures var p := PreloadPlan(slots, predicted, used, budget);
      && ReadAt(p, predicted, at)
      && (|p| < |at| ==> used + BytesOf(slots, p + [predicted[at[|p|]]]) > budget)
  {
    at := WantedPlaces(slots, predicted);
    var p, wanted := PreloadPlan(slots, predicted, used, budget), Wanted(slots, predicted);
    FittingIsLongest(slots, wanted, used, budget);
    ReadAtPrefix(p, wanted, predicted, at);
  }

  /** What bringing the planned models in makes of the slots. */
  function BringIn(slots: Slots, ids: seq<ModelId>): Slots
    decreases |ids|
  {
    if ids == [] then slots
    else BringIn(if ids[0] in slots then slots[ids[0] := slots[ids[0]].(resident := true)] else slots, ids[1..])
  }

  lemma BringOneIn(slots: Slots, id: ModelId)
    requires Keyed(slots) && id in slots
    ensures var r := slots[id := slots[id].(resident := true)];
      && Keyed(r)
      && ResidentBytes(r) == ResidentBytes(slots) + if slots[id].resident then 0 else slots[id].bytes
  {
    var m := slots[id].(resident := true);
    var r := slots[id := m];
    if slots[id].resident {
      assert r == slots;
    } else {
      assert m == r[id] && id in r;
      forall x ensures x in Residents(r) - {m} <==> x in Residents(slots) {
        if x in Residents(slots) {
          assert r[x.id] == x;
        }
      }
      assert Residents(r) - {m} == Residents(slots);
      SumWithout(Residents(r), Bytes, m);
    }
  }

  lemma {:induction false} SameBytes(a: Slots, b: Slots, ids: seq<ModelId>)
    requires a.Keys == b.Keys && forall id :: id in a ==> a[id].bytes == b[id].bytes
    ensures BytesOf(a, ids) == BytesOf(b, ids)
  {
    if ids != [] {
      SameBytes(a, b, ids[1..]);
    }
  }

  lemma {:induction false} BringInAdds(slots: Slots, ids: seq<ModelId>)
    requires Keyed(slots)
    ensures Keyed(BringIn(slots, ids))
    ensures ResidentBytes(slots) <= ResidentBytes(BringIn(slots, ids)) <= ResidentBytes(slots) + BytesOf(slots, ids)
    decreases |ids|
  {
    if ids != [] && ids[0] in slots {
      var r := slots[ids[0] := slots[ids[0]].(resident := true)];
      BringOneIn(slots, ids[0]);
      BringInAdds(r, ids[1..]);
      SameBytes(slots, r, ids[1..]);
    } else if ids != [] {
      BringInAdds(slots, ids[1..]);
    }
  }

  /** Carrying out a preload plan never creates a need to evict: the residents fit the budget
      afterwards exactly when they did before. */
  lemma PreloadsKeepTheBudget(slots: Slots, predicted: seq<ModelId>, budget: nat)
    requires Keyed(slots)
    ensures var p := PreloadPlan(slots, predicted, ResidentBytes(slots), budget);
      && (p != [] ==> ResidentBytes(slots) + BytesOf(slots, p) <= budget)
      && (ResidentBytes(BringIn(slots, p)) <= budget <==> ResidentBytes(slots) <= budget)
  {
    var p := PreloadPlan(slots, predicted, ResidentBytes(slots), budget);
    FittingIsLongest(slots, Wanted(slots, predicted), ResidentBytes(slots), budget);
    BringInAdds(slots, p);
  }

  /** So after a plan that names anything, planning evictions at the same budget names nothing. */
  lemma NoEvictionAfterPreload(slots: Slots, predicted: seq<ModelId>, budget: nat, ordered: seq<ModelSlot>)
    requires Keyed(slots) && PreloadPlan(slots, predicted, ResidentBytes(slots), budget) != []
    ensures var r := BringIn(slots, PreloadPlan(slots, predicted, ResidentBytes(slots), budget));
      EvictionPlan(ordered, ResidentBytes(r), budget) == []
  {
    PreloadsKeepTheBudget(slots, predicted, budget);
  }

  // ------------------------------------------------------------------
  // The manager object.
  // ------------------------------------------------------------------

  function ModelIds(ms: seq<ModelSlot>): seq<ModelId> {
    seq(|ms|, i requires 0 <= i < |ms| => ms[i].id)
  }

  /** Adds up sizes in whatever order the hash map yields the slots. */
  method AddUp(ms: set<ModelSlot>) returns (total: nat)
    ensures total == SumOf(ms, Bytes)
  {
    total := 0;
    var todo := ms;
    while todo != {}
      invariant todo <= ms && total + SumOf(todo, Bytes) == SumOf(ms, Bytes)
      decreases |todo|
    {
      var m :| m in todo;
      SumWithout(todo, Bytes, m);
      total, todo := total + m.bytes, todo - {m};
    }
  }

  lemma WantedStep(slots: Slots, predicted: seq<ModelId>, i: nat, used: nat, budget: nat)
    requires i < |predicted|
    ensures var id, here := predicted[i], PreloadPlan(slots, predicted[i..], used, budget);
      if id !in slots || slots[id].resident then here == PreloadPlan(slots, predicted[i + 1..], used, budget)
      else if used + slots[id].bytes > budget then here == []
      else here == [id] + PreloadPlan(slots, predicted[i + 1..], used + slots[id].bytes, budget)
  {
    var id, rest := predicted[i], Wanted(slots, predicted[i + 1..]);
    assert predicted[i..][1..] == predicted[i + 1..];
    if id in slots && !slots[id].resident {
      assert Wanted(slots, predicted[i..]) == [id] + rest;
      assert ([id] + rest)[1..] == rest;
    } else {
      assert Wanted(slots, predicted[i..]) == [] + rest == rest;
    }
  }

  /** The loop over the sorted residents. */
  method ScanForVictims(sorted: seq<ModelSlot>, bytes: nat, budget: nat) returns (out: seq<ModelId>)
    requires bytes == Total(sorted, Bytes)
    ensures out == ModelIds(EvictionPlan(sorted, bytes, budget))
  {
    out := [];
    var total := bytes;
    ghost var taken: seq<ModelSlot> := [];
    for i := 0 to |sorted|
      invariant out == ModelIds(taken) && total == Total(sorted[i..], Bytes)
      invariant EvictionPlan(sorted, bytes, budget) == taken + EvictionPlan(sorted[i..], total, budget)
    {
      assert sorted[i..][1..] == sorted[i + 1..];
      if total <= budget {
        break;
      }
      taken, out := taken + [sorted[i]], out + [sorted[i].id];
      total := total - sorted[i].bytes;
    }
  }

  class DefaultModelSwap {
    var slots: Slots

    ghost predicate Valid()
      reads this
    {
      Keyed(slots)
    }

    constructor ()
      ensures Valid() && slots == map[]
    {
      slots := map[];
    }

    method RegisterModel(slot: ModelSlot)
      requires Valid()
      modifies this
      ensures Valid() && slots == old(slots)[slot.id := slot]
    {
      slots := slots[slot.id := slot];
    }

    method MarkUsed(id: ModelId, now: real)
      requires Valid()
      modifies this
      ensures Valid()
      ensures slots == if id in old(slots) then old(slots)[id := old(slots)[id].(lastUsed := now)] else old(slots)
    {
      if id in slots {
        slots := slots[id := slots[id].(lastUsed := now)];
      }
    }

    method PlanEvictions(budget: nat) returns (out: seq<ModelId>, ghost ordered: seq<ModelSlot>)
      requires Valid()
      ensures ResidentBytes(slots) <= budget ==> out == []
      ensures ResidentBytes(slots) > budget ==>
        && IsRanking(ordered, Residents(slots), Importance)
        && out == ModelIds(EvictionPlan(ordered, ResidentBytes(slots), budget))
    {
      out, ordered := [], [];
      var total := AddUp(Residents(slots));
      if total <= budget {
        return;
      }
      var sorted := Sort(Residents(slots), Importance);
      TotalIsSum(sorted, Bytes);
      ordered := sorted;
      out := ScanForVictims(sorted, total, budget);
    }

    method PlanPreloads(predicted: seq<ModelId>, budget: nat) returns (out: seq<ModelId>)
      requires Valid()
      ensures out == PreloadPlan(slots, predicted, ResidentBytes(slots), budget)
    {
      var used: nat := AddUp(Residents(slots));
      out := [];
      ghost var plan := PreloadPlan(slots, predicted, used, budget);
      for i := 0 to |predicted|
        invariant plan == out + PreloadPlan(slots, predicted[i..], used, budget)
      {
        var id := predicted[i];
        WantedStep(slots, predicted, i, used, budget);
        if id in slots && !slots[id].resident {
          if used + slots[id].bytes > budget {
            break;
          }
          out, used := out + [id], used + slots[id].bytes;
        }
      }
    }
  }
}
