/** The KV-cache manager object, and the plan-and-release loop that a tick runs on it. */
module KvCache {
  import opened Greedy
  import opened KvSpec

  lemma ScanStep(c: Config, budget: size_t, bs: seq<KVBlock>, i: nat, need: int)
    requires i < |bs| && need > 0
    ensures var here, rest := Evictable(c, budget, bs[i..]), Evictable(c, budget, bs[i + 1..]);
      if Protected(c, budget, bs[i]) then here == rest
      else
        && Take(here, Tokens, need) == [bs[i]] + Take(rest, Tokens, need - bs[i].tokenCount)
        && (bs[i].tokenCount >= need ==> Take(here, Tokens, need) == [bs[i]])
  {
    assert bs[i..][1..] == bs[i + 1..];
    var rest := Evictable(c, budget, bs[i + 1..]);
    assert ([bs[i]] + rest)[1..] == rest;
  }

  /** The planner's loop over the sorted blocks. */
  method ScanForVictims(c: Config, budget: size_t, sorted: seq<KVBlock>, excess: nat) returns (evict: seq<nat>)
    requires excess > 0
    ensures evict == Ids(Take(Evictable(c, budget, sorted), Tokens, excess))
  {
    evict := [];
    var toEvict := excess;
    ghost var plan := Take(Evictable(c, budget, sorted), Tokens, excess);
    ghost var taken: seq<KVBlock> := [];
    for i := 0 to |sorted|
      invariant toEvict > 0 && evict == Ids(taken)
      invariant plan == taken + Take(Evictable(c, budget, sorted[i..]), Tokens, toEvict)
    {
      var b := sorted[i];
      ScanStep(c, budget, sorted, i, toEvict);
      if !Protected(c, budget, b) {
        taken, evict := taken + [b], evict + [b.sequenceId];
        if b.tokenCount >= toEvict {
          return;
        }
        toEvict := toEvict - b.tokenCount;
      }
    }
  }

  class KvCacheManager {
    const cfg: Config
    var blocks: map<nat, KVBlock>
    var totalTokens: nat

    ghost function View(): Kv
      reads this
    {
      Kv(blocks, totalTokens)
    }

    /** The total covers what is tracked, so subtracting a tracked block cannot underflow. */
    ghost predicate Valid()
      reads this
    {
      Keyed(View()) && totalTokens >= SumOf(Tracked(View()), Tokens)
    }

    constructor (cfg: Config)
      ensures Valid() && View() == EMPTY && this.cfg == cfg
    {
      this.cfg := cfg;
      blocks, totalTokens := map[], 0;
    }

    method Observe(b: KVBlock)
      requires Valid()
      modifies this
      ensures Valid() && View() == KvSpec.Observe(old(View()), b)
    {
      ObserveFacts(View(), b);
      blocks := blocks[b.sequenceId := b];
      totalTokens := totalTokens + b.tokenCount;
    }

    method Release(id: nat)
      requires Valid()
      modifies this
      ensures Valid() && View() == KvSpec.Release(old(View()), id)
    {
      ReleaseFacts(View(), id);
      if id in blocks {
        totalTokens := totalTokens - blocks[id].tokenCount;
        blocks := blocks - {id};
      }
    }

    /** Sorts the blocks by salience and takes unprotected ones until the excess is covered. */
    method Plan(budget: size_t) returns (evict: seq<nat>, ghost ordered: seq<KVBlock>)
      requires Valid()
      ensures totalTokens <= budget ==> evict == []
      ensures totalTokens > budget ==>
        && IsRanking(ordered, Tracked(View()), Salience)
        && evict == Ids(KvSpec.Plan(cfg, budget, totalTokens, ordered))
    {
      evict, ordered := [], [];
      if totalTokens <= budget {
        return;
      }
      var sorted := Sort(set id | id in blocks :: blocks[id], Salience);
      ordered := sorted;
      evict := ScanForVictims(cfg, budget, sorted, totalTokens - budget);
    }

    method Reset()
      modifies this
      ensures Valid() && View() == EMPTY
    {
      blocks, totalTokens := map[], 0;
    }

    /** What a tick does with the budget that the arbiter has decided on: afterwards the total is
        within the budget or every tracked block is protected, and only unprotected blocks went. */
    method PlanAndRelease(budget: size_t)
      requires Valid()
      modifies this
      ensures Valid()
      ensures totalTokens <= budget || forall b :: b in Tracked(View()) ==> Protected(cfg, budget, b)
      ensures Tracked(View()) <= old(Tracked(View()))
      ensures forall b :: b in old(Tracked(View())) && Protected(cfg, budget, b) ==> b in Tracked(View())
      ensures old(totalTokens) <= budget ==> View() == old(View())
    {
      var evict, ordered := Plan(budget);
      ghost var s := View();
      for i := 0 to |evict|
        invariant Valid() && ReleaseAll(View(), evict[i..]) == ReleaseAll(s, evict)
      {
        assert evict[i..][1..] == evict[i + 1..];
        Release(evict[i]);
      }
      if s.total > budget {
        PlanIsSafeAndMinimal(cfg, budget, s, ordered);
        ReleaseAllFacts(s, KvSpec.Plan(cfg, budget, s.total, ordered));
      }
    }
  }
}
