/** The KV-cache manager: tracked blocks, a token total, and plans that evict down to a budget. */
module KvSpec {
  import opened Sequences
  import opened Greedy

  const TWO_32: nat := 0x1_0000_0000
  const TWO_64: nat := 0x1_0000_0000_0000_0000

  type uint32 = n: nat | n < TWO_32
  type size_t = n: nat | n < TWO_64

  datatype KVBlock = KVBlock(
    sequenceId: nat, tokenStart: uint32, tokenCount: uint32, salience: real, pinned: bool)

  /** The windows a plan must leave alone: the first `sink` tokens and the last `recent` ones. */
  datatype Config = Config(sink: size_t, recent: size_t)

  datatype Kv = Kv(blocks: map<nat, KVBlock>, total: int)

  const EMPTY: Kv := Kv(map[], 0)

  function Observe(s: Kv, b: KVBlock): Kv {
    Kv(s.blocks[b.sequenceId := b], s.total + b.tokenCount)
  }

  function Release(s: Kv, id: nat): Kv {
    if id in s.blocks then Kv(s.blocks - {id}, s.total - s.blocks[id].tokenCount) else s
  }

  function ReleaseAll(s: Kv, ids: seq<nat>): Kv
    decreases |ids|
  {
    if ids == [] then s else ReleaseAll(Release(s, ids[0]), ids[1..])
  }

  ghost function Tracked(s: Kv): set<KVBlock> {
    set id | id in s.blocks :: s.blocks[id]
  }

  function Tokens(b: KVBlock): nat { b.tokenCount }

  function Salience(b: KVBlock): Rank { Rank(0, b.salience) }

  /** Every block is tracked under its own id. */
  ghost predicate Keyed(s: Kv) {
    forall id :: id in s.blocks ==> s.blocks[id].sequenceId == id
  }

  // ------------------------------------------------------------------
  // What a plan protects.
  // ------------------------------------------------------------------

  /** The test for the recent tail as the machine computes it: the sum of two 32-bit counters
      against a 64-bit difference, both wrapping. */
  predicate InTail(c: Config, budget: size_t, b: KVBlock) {
    (b.tokenStart + b.tokenCount) % TWO_32 > (budget - c.recent) % TWO_64
  }

  predicate Protected(c: Config, budget: size_t, b: KVBlock) {
    b.pinned || b.tokenStart < c.sink || InTail(c, budget, b)
  }

  /** What the test is for: the block reaches into the last `recent` tokens of the budget. */
  predicate ReachesTail(c: Config, budget: size_t, b: KVBlock) {
    b.tokenStart + b.tokenCount + c.recent > budget
  }

  /** For which blocks the test means that, when the budget is at least the recent window: those
      whose end does not wrap, those that wrap so far that they pass all the same, and those that end
      before the window. */
  lemma TailTestOfBlock(c: Config, budget: size_t, b: KVBlock)
    requires budget >= c.recent
    ensures var end := b.tokenStart + b.tokenCount;
      (InTail(c, budget, b) <==> ReachesTail(c, budget, b))
      <==> end < TWO_32 || end - TWO_32 > budget - c.recent || end + c.recent <= budget
  {
    var end := b.tokenStart + b.tokenCount;
    assert (budget - c.recent) % TWO_64 == budget - c.recent;
    assert end % TWO_32 == if end < TWO_32 then end else end - TWO_32;
  }

  /** For all blocks whose end does not wrap the test means that exactly when the budget is at least
      the recent window. */
  lemma TailTestExact(c: Config, budget: size_t)
    ensures budget >= c.recent <==>
      forall b: KVBlock :: b.tokenStart + b.tokenCount < TWO_32 ==>
        (InTail(c, budget, b) <==> ReachesTail(c, budget, b))
  {
    if budget < c.recent {
      var b := KVBlock(0, 0, 0, 0.0, false);
      assert ReachesTail(c, budget, b) && !InTail(c, budget, b);
    }
  }

  /** Below that the difference wraps, and no block at all is in the tail, exactly as long as the
      window exceeds the budget by no more than 2^64 - 2^32 + 1. */
  lemma TailTestVanishes(c: Config, budget: size_t)
    requires budget < c.recent
    ensures (forall b: KVBlock :: !InTail(c, budget, b)) <==> c.recent <= budget + TWO_64 - TWO_32 + 1
  {
    var longest := KVBlock(0, 0, TWO_32 - 1, 0.0, false);
    assert (budget - c.recent) % TWO_64 == budget - c.recent + TWO_64;
    assert InTail(c, budget, longest) <==> TWO_32 - 1 > budget - c.recent + TWO_64;
  }

  // ------------------------------------------------------------------
  // Plans.
  // ------------------------------------------------------------------

  function Evictable(c: Config, budget: size_t, bs: seq<KVBlock>): seq<KVBlock> {
    if bs == [] then []
    else (if Protected(c, budget, bs[0]) then [] else [bs[0]]) + Evictable(c, budget, bs[1..])
  }

  /** The blocks a plan evicts, given the order that sorting by salience has put them in. */
  function Plan(c: Config, budget: size_t, total: int, ordered: seq<KVBlock>): seq<KVBlock> {
    Take(Evictable(c, budget, ordered), Tokens, total - budget)
  }

  function Ids(bs: seq<KVBlock>): seq<nat> {
    seq(|bs|, i requires 0 <= i < |bs| => bs[i].sequenceId)
  }

  lemma {:induction false} EvictableFacts(c: Config, budget: size_t, bs: seq<KVBlock>)
    requires Distinct(bs) && SortedBy(bs, Salience)
    ensures var e := Evictable(c, budget, bs);
      && Distinct(e) && SortedBy(e, Salience)
      && forall b :: b in e <==> b in bs && !Protected(c, budget, b)
  {
    if bs != [] {
      EvictableFacts(c, budget, bs[1..]);
      assert forall b :: b in bs <==> b == bs[0] || b in bs[1..];
      ConsRanked(bs[0], Evictable(c, budget, bs[1..]), Salience);
    }
  }

  /** A plan names tracked blocks that are not protected, each once. It covers the excess or takes
      every evictable block, and it never takes a block more than it needs. */
  lemma PlanIsSafeAndMinimal(c: Config, budget: size_t, s: Kv, ordered: seq<KVBlock>)
    requires IsRanking(ordered, Tracked(s), Salience)
    ensures var p := Plan(c, budget, s.total, ordered);
      && Distinct(p)
      && (forall b :: b in p ==> b in Tracked(s) && !Protected(c, budget, b))
      && (SumOf(Elems(p), Tokens) >= s.total - budget
          || forall b :: b in Tracked(s) && !Protected(c, budget, b) ==> b in p)
      && (p != [] ==> SumOf(Elems(Init(p)), Tokens) < s.total - budget)
  {
    var e, p := Evictable(c, budget, ordered), Plan(c, budget, s.total, ordered);
    EvictableFacts(c, budget, ordered);
    TakeFacts(e, Tokens, s.total - budget);
    TotalIsSum(p, Tokens);
    if p != [] {
      TotalIsSum(Init(p), Tokens);
    }
  }

  /** Where a block ends, as a 32-bit counter has it. */
  function EndOf(b: KVBlock): nat {
    var end := b.tokenStart + b.tokenCount;
    if end < TWO_32 then end else end - TWO_32
  }

  /** Where the recent tail begins, as a 64-bit counter has it. */
  function TailFrom(c: Config, budget: size_t): nat {
    if c.recent <= budget then budget - c.recent else budget - c.recent + TWO_64
  }

  /** The block may go: it is not pinned, not of the sink, and does not end in the tail. */
  predicate MayGo(c: Config, budget: size_t, b: KVBlock) {
    !b.pinned && c.sink <= b.tokenStart && EndOf(b) <= TailFrom(c, budget)
  }

  lemma ProtectedMeans(c: Config, budget: size_t, b: KVBlock)
    ensures Protected(c, budget, b) <==> !MayGo(c, budget, b)
  {
    assert (b.tokenStart + b.tokenCount) % TWO_32 == EndOf(b);
    assert (budget - c.recent) % TWO_64 == TailFrom(c, budget);
  }

  lemma TakenAreLeastSalient(c: Config, budget: size_t, s: Kv, ordered: seq<KVBlock>, x: KVBlock, b: KVBlock)
    requires IsRanking(ordered, Tracked(s), Salience) && b in Tracked(s) && !Protected(c, budget, b)
    requires x in Plan(c, budget, s.total, ordered) && b !in Plan(c, budget, s.total, ordered)
    ensures x.salience <= b.salience
  {
    var e := Evictable(c, budget, ordered);
    EvictableFacts(c, budget, ordered);
    assert b in Elems(ordered) && b in e;
    TakenRankFirst(e, Tokens, Salience, s.total - budget, x, b);
  }

  /** Which blocks a plan names, by their own fields: only blocks that may go, and all of them if it
      falls short; and of those that may go, the least salient. */
  lemma PlanGoesByTheFields(c: Config, budget: size_t, s: Kv, ordered: seq<KVBlock>, b: KVBlock)
    requires IsRanking(ordered, Tracked(s), Salience) && b in Tracked(s)
    ensures var p := Plan(c, budget, s.total, ordered);
      && (b in p ==> MayGo(c, budget, b))
      && (MayGo(c, budget, b) && SumOf(Elems(p), Tokens) < s.total - budget ==> b in p)
      && (MayGo(c, budget, b) && b !in p ==> forall x :: x in p ==> x.salience <= b.salience)
  {
    var p := Plan(c, budget, s.total, ordered);
    ProtectedMeans(c, budget, b);
    PlanIsSafeAndMinimal(c, budget, s, ordered);
    if !Protected(c, budget, b) && b !in p {
      forall x | x in p ensures x.salience <= b.salience {
        TakenAreLeastSalient(c, budget, s, ordered, x, b);
      }
    }
  }

  /** So with a budget of at least the recent window, no planned block that ends within 32 bits is
      pinned, begins before the sink ends, or ends in the last `recent` tokens of the budget. */
  lemma PlanSparesSinkAndTail(c: Config, budget: size_t, s: Kv, ordered: seq<KVBlock>, b: KVBlock)
    requires IsRanking(ordered, Tracked(s), Salience) && b in Plan(c, budget, s.total, ordered)
    ensures !b.pinned && b.tokenStart >= c.sink
    ensures budget >= c.recent && b.tokenStart + b.tokenCount < TWO_32 ==>
      b.tokenStart + b.tokenCount + c.recent <= budget
  {
    PlanIsSafeAndMinimal(c, budget, s, ordered);
    PlanGoesByTheFields(c, budget, s, ordered, b);
  }

  /** Whatever unprotected blocks one evicts instead: if they cover the excess, one of them is at
      least as salient as the last block of the plan. */
  lemma PlanIsBottleneckOptimal(c: Config, budget: size_t, s: Kv, ordered: seq<KVBlock>, chosen: set<KVBlock>)
    returns (b: KVBlock)
    requires IsRanking(ordered, Tracked(s), Salience) && Plan(c, budget, s.total, ordered) != []
    requires forall x :: x in chosen ==> x in ordered && !Protected(c, budget, x)
    requires SumOf(chosen, Tokens) >= s.total - budget
    ensures b in chosen && b.salience >= Last(Plan(c, budget, s.total, ordered)).salience
  {
    var e := Evictable(c, budget, ordered);
    assert Distinct(e) && SortedBy(e, Salience) && chosen <= Elems(e) by {
      EvictableFacts(c, budget, ordered);
    }
    b := Bottleneck(e, Tokens, Salience, s.total - budget, chosen);
  }

  // ------------------------------------------------------------------
  // Accounting.
  // ------------------------------------------------------------------

  datatype Op = Observation(b: KVBlock) | Releasing(id: nat) | Resetting

  function Step(s: Kv, op: Op): Kv {
    match op
    case Observation(b) => Observe(s, b)
    case Releasing(id) => Release(s, id)
    case Resetting => EMPTY
  }

  function Run(ops: seq<Op>): Kv {
    if ops == [] then EMPTY else Step(Run(Init(ops)), Last(ops))
  }

  /** Tokens of blocks that were observed again while tracked, since the last reset: overwritten,
      but never taken off the total. */
  function Stale(ops: seq<Op>): nat {
    if ops == [] then 0
    else
      var s, n := Run(Init(ops)), Stale(Init(ops));
      match Last(ops)
      case Observation(b) => if b.sequenceId in s.blocks then n + s.blocks[b.sequenceId].tokenCount else n
      case Releasing(_) => n
      case Resetting => 0
  }

  lemma ReleaseFacts(s: Kv, id: nat)
    requires Keyed(s)
    ensures Keyed(Release(s, id))
    ensures id in s.blocks ==>
      && Tracked(Release(s, id)) == Tracked(s) - {s.blocks[id]} && s.blocks[id] in Tracked(s)
      && SumOf(Tracked(s), Tokens) == SumOf(Tracked(Release(s, id)), Tokens) + s.blocks[id].tokenCount
  {
    if id in s.blocks {
      var r := Release(s, id);
      forall b ensures b in Tracked(r) <==> b in Tracked(s) && b != s.blocks[id] {
        if b in Tracked(s) && b != s.blocks[id] {
          assert r.blocks[b.sequenceId] == b;
        }
      }
      SumWithout(Tracked(s), Tokens, s.blocks[id]);
    }
  }

  lemma ObserveFacts(s: Kv, b: KVBlock)
    requires Keyed(s)
    ensures Keyed(Observe(s, b))
    ensures SumOf(Tracked(Observe(s, b)), Tokens)
      == SumOf(Tracked(s), Tokens) + b.tokenCount
         - if b.sequenceId in s.blocks then s.blocks[b.sequenceId].tokenCount else 0
  {
    var r := Observe(s, b);
    ReleaseFacts(s, b.sequenceId);
    ReleaseFacts(r, b.sequenceId);
    assert Release(r, b.sequenceId).blocks == Release(s, b.sequenceId).blocks;
    assert Tracked(Release(r, b.sequenceId)) == Tracked(Release(s, b.sequenceId));
  }

  /** Over every run the total is what is tracked plus what is stale: never less than the tracked
      tokens, so no release underflows, and equal to them exactly when nothing is stale. */
  lemma {:induction false} TotalIsTrackedPlusStale(ops: seq<Op>)
    ensures Keyed(Run(ops)) && Run(ops).total == SumOf(Tracked(Run(ops)), Tokens) + Stale(ops)
  {
    if ops != [] {
      TotalIsTrackedPlusStale(Init(ops));
      match Last(ops)
      case Observation(b) => ObserveFacts(Run(Init(ops)), b);
      case Releasing(id) => ReleaseFacts(Run(Init(ops)), id);
      case Resetting =>
    }
  }

  /** Observing the same block twice puts the total above what is tracked, and releasing it leaves
      the difference. */
  lemma ObservedAgain(b: KVBlock)
    ensures var s := Run([Observation(b), Observation(b)]);
      s.total == 2 * b.tokenCount && SumOf(Tracked(s), Tokens) == b.tokenCount
    ensures var s := Run([Observation(b), Observation(b), Releasing(b.sequenceId)]);
      s.total == b.tokenCount && Tracked(s) == {}
  {
    var none: seq<Op> := [];
    var one, two := [Observation(b)], [Observation(b), Observation(b)];
    var ops := two + [Releasing(b.sequenceId)];
    assert Init(two) == one && Init(one) == none;
    assert Run(none) == EMPTY && Stale(none) == 0;
    assert Run(one) == Kv(map[b.sequenceId := b], b.tokenCount) && Stale(one) == 0;
    assert Init(ops) == two && ops == [Observation(b), Observation(b), Releasing(b.sequenceId)];
    assert Run(two) == Kv(map[b.sequenceId := b], 2 * b.tokenCount);
    TotalIsTrackedPlusStale(two);
    assert Stale(two) == b.tokenCount;
    assert Run(ops).blocks == map[];
  }

  // ------------------------------------------------------------------
  // Plan and release, as a tick does.
  // ------------------------------------------------------------------

  lemma {:induction false} ReleaseAllFacts(s: Kv, bs: seq<KVBlock>)
    requires Keyed(s) && Distinct(bs) && forall b :: b in bs ==> b in Tracked(s)
    ensures var r := ReleaseAll(s, Ids(bs));
      && Keyed(r) && Tracked(r) == Tracked(s) - Elems(bs)
      && r.total == s.total - SumOf(Elems(bs), Tokens)
    decreases |bs|
  {
    if bs != [] {
      var q := Release(s, bs[0].sequenceId);
      ReleaseFacts(s, bs[0].sequenceId);
      assert Ids(bs)[1..] == Ids(bs[1..]);
      assert bs[0] in Tracked(s);
      var id :| id in s.blocks && s.blocks[id] == bs[0];
      forall b | b in bs[1..] ensures b in Tracked(q) {
        assert b in bs && b != bs[0];
      }
      ReleaseAllFacts(q, bs[1..]);
      SumWithout(Elems(bs), Tokens, bs[0]);
      assert Elems(bs) - {bs[0]} == Elems(bs[1..]);
    }
  }

  /** One round of planning and releasing brings the total within the budget or leaves nothing but
      protected blocks, and a second plan at the same budget has nothing left to evict. */
  lemma OneRoundSuffices(c: Config, budget: size_t, s: Kv, ordered: seq<KVBlock>, again: seq<KVBlock>)
    requires Keyed(s) && IsRanking(ordered, Tracked(s), Salience)
    requires var r := ReleaseAll(s, Ids(Plan(c, budget, s.total, ordered)));
      IsRanking(again, Tracked(r), Salience)
    ensures var r := ReleaseAll(s, Ids(Plan(c, budget, s.total, ordered)));
      && (r.total <= budget || forall b :: b in Tracked(r) ==> Protected(c, budget, b))
      && Plan(c, budget, r.total, again) == []
  {
    var p := Plan(c, budget, s.total, ordered);
    var r := ReleaseAll(s, Ids(p));
    PlanIsSafeAndMinimal(c, budget, s, ordered);
    ReleaseAllFacts(s, p);
    PlanIsSafeAndMinimal(c, budget, r, again);
    var q := Plan(c, budget, r.total, again);
    if r.total > budget && q != [] {
      assert q[0] in q;
    }
  }
}
