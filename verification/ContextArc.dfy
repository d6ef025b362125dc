/** What the Python ContextARC adds to a hint: the cold pre-warm of one predicted key. */
module ContextArc {
  import opened CacheTypes
  import opened ArcSpec
  import opened ArcInvariants

  const PRELOAD_SCORE_THRESHOLD: real := 0.22

  /** The bytes of `\x00preload`. */
  const PRELOAD_MARKER: Bytes := [0x00, 0x70, 0x72, 0x65, 0x6c, 0x6f, 0x61, 0x64]

  /** The first predicted key that is not resident and is predicted with enough confidence. */
  function FirstCold(s: Arc, ps: seq<Prediction>): Option<Key> {
    if ps == [] then None
    else if !s.Resident(ps[0].appId) && ps[0].score >= PRELOAD_SCORE_THRESHOLD then Some(ps[0].appId)
    else FirstCold(s, ps[1..])
  }

  ghost function PreWarm(s: Arc, ps: seq<Prediction>, pick: Key): Arc {
    var h := OnHint(s, AppIds(ps));
    match FirstCold(s, ps)
    case None => h
    case Some(k) => OnPut(h, k, PRELOAD_MARKER, pick)
  }

  /** The calls that a hint with a pre-warm amounts to: the marker is put like any value. */
  function AsOps(s: Arc, ps: seq<Prediction>, pick: Key): seq<Op> {
    match FirstCold(s, ps)
    case None => [Hint(AppIds(ps))]
    case Some(k) => [Hint(AppIds(ps)), Put(k, PRELOAD_MARKER, pick)]
  }

  /** So every theorem about runs covers runs with pre-warming hints. */
  lemma PreWarmIsARun(s: Arc, ps: seq<Prediction>, pick: Key)
    ensures Run(s, AsOps(s, ps, pick)) == PreWarm(s, ps, pick)
  {
    RunSnoc(s, [], Hint(AppIds(ps)));
    assert [] + [Hint(AppIds(ps))] == [Hint(AppIds(ps))];
    if FirstCold(s, ps).Some? {
      var put := Put(FirstCold(s, ps).value, PRELOAD_MARKER, pick);
      RunSnoc(s, [Hint(AppIds(ps))], put);
      assert [Hint(AppIds(ps))] + [put] == AsOps(s, ps, pick);
    }
  }

  /** A put evicts at most one resident. */
  lemma PutEvictsAtMostOne(s: Arc, k: Key, v: Bytes, pick: Key)
    ensures var r := OnPut(s, k, v, pick);
      forall i, j :: i in s.val && j in s.val && i !in r.val && j !in r.val ==> i == j
  {
  }

  /** The prediction at `i` is cold and confident, and the first that is. */
  ghost predicate FirstColdAt(s: Arc, ps: seq<Prediction>, i: int) {
    && 0 <= i < |ps| && !s.Resident(ps[i].appId) && ps[i].score >= 0.22
    && forall j :: 0 <= j < i ==> s.Resident(ps[j].appId) || ps[j].score < 0.22
  }

  /** A key is pre-warmed exactly if some prediction is cold and confident, and it is the first one. */
  lemma {:induction false} FirstColdIsCold(s: Arc, ps: seq<Prediction>)
    ensures FirstCold(s, ps).None? ==> forall i :: 0 <= i < |ps| ==> s.Resident(ps[i].appId) || ps[i].score < 0.22
    ensures FirstCold(s, ps).Some? ==> exists i :: FirstColdAt(s, ps, i) && ps[i].appId == FirstCold(s, ps).value
  {
    if ps != [] {
      FirstColdIsCold(s, ps[1..]);
      assert forall i :: 1 <= i < |ps| ==> ps[i] == ps[1..][i - 1];
      if !s.Resident(ps[0].appId) && ps[0].score >= PRELOAD_SCORE_THRESHOLD {
        assert FirstColdAt(s, ps, 0);
      } else if FirstCold(s, ps).Some? {
        var i :| FirstColdAt(s, ps[1..], i) && ps[1..][i].appId == FirstCold(s, ps[1..]).value;
        assert FirstColdAt(s, ps, i + 1);
      }
    }
  }

  /** One hint evicts at most one resident, makes exactly the first cold and confident key resident, if
      there is one, with the marker, and leaves all other values alone. */
  lemma PreWarmTradesOneForOne(s: Arc, ps: seq<Prediction>, pick: Key)
    requires Shape(s)
    ensures var r := PreWarm(s, ps, pick);
      && (forall i, j :: i in s.val && j in s.val && i !in r.val && j !in r.val ==> i == j)
      && (forall i :: i in r.val && i !in s.val <==> Some(i) == FirstCold(s, ps))
      && (forall i :: i in r.val && i !in s.val ==> r.val[i] == [0x00, 0x70, 0x72, 0x65, 0x6c, 0x6f, 0x61, 0x64])
      && (FirstCold(s, ps).None? ==> r.val == s.val)
      && (forall i :: i in r.val && i in s.val ==> r.val[i] == s.val[i])
  {
    HintKeepsShape(s, AppIds(ps));
    if FirstCold(s, ps).Some? {
      var h, k := OnHint(s, AppIds(ps)), FirstCold(s, ps).value;
      FirstColdIsCold(s, ps);
      PutEvictsAtMostOne(h, k, PRELOAD_MARKER, pick);
      PutAddsOnlyItsKey(h, k, PRELOAD_MARKER, pick);
    }
  }
}
