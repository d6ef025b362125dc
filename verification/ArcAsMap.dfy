/** An ARC cache compared with a plain map that never evicts. */
module ArcAsMap {
  import opened Sequences
  import opened CacheTypes
  import opened ArcSpec
  import opened ArcInvariants

  lemma StepAgreesWithMap(s: Arc, m: map<Key, Bytes>, op: Op)
    requires Shape(s) && SubMap(s.val, m)
    ensures SubMap(Step(s, op).val, MapStep(m, op))
    ensures op.Put? ==> Lookup(Step(s, op).val, op.key) == Some(op.value)
  {
    match op
    case Put(k, v, pick) => PutAddsOnlyItsKey(s, k, v, pick);
    case Hint(ks) => HintKeepsShape(s, ks);
    case _ =>
  }

  lemma StepCountsLookups(s: Arc, op: Op)
    requires Shape(s)
    ensures Step(s, op).hits + Step(s, op).misses
      == if op.Clear? then 0 else s.hits + s.misses + if op.Get? then 1 else 0
  {
    match op
    case Put(k, v, pick) => PutAddsOnlyItsKey(s, k, v, pick);
    case Hint(ks) => HintKeepsShape(s, ks);
    case _ =>
  }

  /** After any run the cache holds part of what a plain map would hold, with the same values, and
      every lookup since the last clear is counted as a hit or as a miss. */
  lemma {:induction false} AgreesWithPlainMap(c: nat, ops: seq<Op>)
    ensures var s := Run(Empty(c), ops);
      SubMap(s.val, PlainMap(ops)) && s.hits + s.misses == Lookups(ops)
  {
    if ops != [] {
      AgreesWithPlainMap(c, Init(ops));
      ReachableShape(c, Init(ops));
      StepAgreesWithMap(Run(Empty(c), Init(ops)), PlainMap(Init(ops)), Last(ops));
      StepCountsLookups(Run(Empty(c), Init(ops)), Last(ops));
    }
  }
}
