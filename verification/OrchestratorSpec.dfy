/** The facade as a state machine on values: what the predictor has learned, the stored log, and the
    app cache, over every sequence of calls. */
module OrchestratorSpec {
  import opened Sequences
  import opened CacheTypes
  import opened AppEvents
  import opened EventLog
  import opened Predictions
  import KvSpec
  import Markov
  import MostRecent
  import ArcSpec
  import ArcInvariants
  import ArcResizing
  import ArcScan

  /** The byte string "w" that stands in for a preloaded app. */
  const WARM: Bytes := [0x77]

  datatype ArbiterPlan = ArbiterPlan(
    appCapacity: nat, modelCapacity: nat, kvBudget: KvSpec.size_t, allowPreload: bool)

  // ------------------------------------------------------------------
  // Learning, one event at a time.
  // ------------------------------------------------------------------

  /** What the configured predictor holds. */
  datatype Learner = Counts(tables: Markov.Tables) | Remembers(history: seq<AppId>)

  function Fresh(l: Learner): Learner {
    if l.Counts? then Counts(Markov.EMPTY) else Remembers([])
  }

  function Observe(l: Learner, ev: AppEvent): Learner {
    match l
    case Counts(t) => Counts(Markov.Observed(t, ev))
    case Remembers(h) => if Opens(ev) then Remembers(MostRecent.Pushed(h, ev.appId)) else l
  }

  /** `l` after the events of `log`, oldest first. */
  function Replay(l: Learner, log: seq<AppEvent>): Learner {
    if log == [] then l else Observe(Replay(l, Init(log)), Last(log))
  }

  /** What replaying a log into a fresh predictor comes to: the counts of the whole log, or the last
      opens in it. */
  lemma {:induction false} ReplayInClosedForm(l: Learner, log: seq<AppEvent>)
    ensures Replay(Fresh(l), log)
      == if l.Counts? then Counts(Markov.Learn(log)) else Remembers(MostRecent.History(log))
  {
    if log != [] {
      ReplayInClosedForm(l, Init(log));
      if l.Remembers? {
        MostRecent.HistorySnoc(Init(log), Last(log));
        assert Init(log) + [Last(log)] == log;
      }
    }
  }

  /** `out` is what the predictor answers; equal Markov scores come in any order. */
  ghost predicate Predicts(l: Learner, k: nat, out: seq<Prediction>) {
    match l
    case Counts(t) => TopK(out, Markov.ScoreTable(t), k)
    case Remembers(h) => out == MostRecent.Predicted(h, k)
  }

  // ------------------------------------------------------------------
  // Preloading.
  // ------------------------------------------------------------------

  ghost function Warmed(s: ArcSpec.Arc, k: Key, pick: Key): ArcSpec.Arc {
    var r := ArcSpec.OnGet(s, k);
    if s.Resident(k) then r else ArcSpec.OnPut(r, k, WARM, pick)
  }

  /** A look at each key, and a placeholder for it if it is not there. */
  ghost function WarmOps(s: ArcSpec.Arc, keys: seq<Key>, picks: seq<Key>): seq<Op>
    requires |picks| == |keys|
  {
    if keys == [] then []
    else
      var ops, k := WarmOps(s, Init(keys), Init(picks)), Last(keys);
      ops + [Get(k)] + if ArcSpec.Run(s, ops).Resident(k) then [] else [Put(k, WARM, Last(picks))]
  }

  lemma PlacedFacts(s: ArcSpec.Arc, k: Key, pick: Key)
    requires ArcInvariants.Shape(s)
    ensures var r := ArcSpec.OnPut(s, k, WARM, pick);
      && ArcInvariants.Shape(r) && r.cap == s.cap && r.Resident(k)
      && r.hits == s.hits && r.misses == s.misses
  {
    ArcInvariants.StepCapacity(s, Put(k, WARM, pick));
    ArcInvariants.PutKeepsShape(s, k, WARM, pick);
    ArcSpec.PutAddsOnlyItsKey(s, k, WARM, pick);
  }

  lemma WarmedFacts(s: ArcSpec.Arc, k: Key, pick: Key)
    requires ArcInvariants.Shape(s)
    ensures var r := Warmed(s, k, pick);
      && ArcInvariants.Shape(r) && r.cap == s.cap && r.Resident(k)
      && r.hits + r.misses == s.hits + s.misses + 1
  {
    ArcInvariants.PromoteKeepsShape(s, k);
    if !s.Resident(k) {
      PlacedFacts(ArcSpec.OnGet(s, k), k, pick);
    }
  }

  lemma WarmStep(s: ArcSpec.Arc, keys: seq<Key>, picks: seq<Key>)
    requires |picks| == |keys| && keys != []
    ensures var r, k := ArcSpec.Run(s, WarmOps(s, Init(keys), Init(picks))), Last(keys);
      ArcSpec.Run(s, WarmOps(s, keys, picks))
        == Warmed(r, k, Last(picks))
  {
    var ops, k := WarmOps(s, Init(keys), Init(picks)), Last(keys);
    ArcSpec.RunSnoc(s, ops, Get(k));
    ArcSpec.RunSnoc(s, ops + [Get(k)], Put(k, WARM, Last(picks)));
    assert ops + [Get(k)] + [] == ops + [Get(k)];
  }

  /** Preloading brings in nothing but placeholders, for the keys asked for; everything else that is
      still resident has the value it had. */
  lemma {:induction false} WarmingAddsOnlyPlaceholders(s: ArcSpec.Arc, keys: seq<Key>, picks: seq<Key>, k: Key)
    requires |picks| == |keys|
    ensures var r := ArcSpec.Run(s, WarmOps(s, keys, picks));
      k in r.val ==> (k in s.val && r.val[k] == s.val[k]) || (k in keys && r.val[k] == WARM)
  {
    if keys != [] {
      var ops, x := WarmOps(s, Init(keys), Init(picks)), Last(keys);
      WarmingAddsOnlyPlaceholders(s, Init(keys), Init(picks), k);
      WarmStep(s, keys, picks);
      ArcSpec.PutAddsOnlyItsKey(ArcSpec.OnGet(ArcSpec.Run(s, ops), x), x, WARM, Last(picks));
    }
  }

  lemma {:induction false} WarmingLooksUpEach(s: ArcSpec.Arc, keys: seq<Key>, picks: seq<Key>)
    requires |picks| == |keys| && ArcInvariants.Shape(s)
    ensures var r := ArcSpec.Run(s, WarmOps(s, keys, picks));
      && ArcInvariants.Shape(r) && r.cap == s.cap && r.hits + r.misses == s.hits + s.misses + |keys|
      && (keys != [] ==> r.Resident(Last(keys)))
  {
    if keys != [] {
      WarmingLooksUpEach(s, Init(keys), Init(picks));
      WarmStep(s, keys, picks);
      WarmedFacts(ArcSpec.Run(s, WarmOps(s, Init(keys), Init(picks))), Last(keys), Last(picks));
    }
  }

  lemma WarmSnoc(s: ArcSpec.Arc, keys: seq<Key>, picks: seq<Key>, k: Key, pick: Key)
    requires |picks| == |keys|
    ensures var r := ArcSpec.Run(s, WarmOps(s, keys, picks));
      ArcSpec.Run(s, WarmOps(s, keys + [k], picks + [pick]))
        == Warmed(r, k, pick)
  {
    assert Init(keys + [k]) == keys && Init(picks + [pick]) == picks;
    WarmStep(s, keys + [k], picks + [pick]);
  }

  /** What a round does to the app cache. */
  ghost function Ticked(
    app: ArcSpec.Arc, plan: ArbiterPlan, ps: seq<Prediction>, keys: seq<Key>, picks: seq<Key>): ArcSpec.Arc
    requires |picks| == |keys|
  {
    var r := ArcSpec.OnResize(app, plan.appCapacity);
    if !plan.allowPreload then r
    else
      var h := ArcSpec.OnHint(r, AppIds(ps));
      ArcSpec.Run(h, WarmOps(h, keys, picks))
  }

  /** A round that may not preload only trims the app cache to the capacity of the plan. */
  lemma TickWithoutPreload(
    app: ArcSpec.Arc, plan: ArbiterPlan, ps: seq<Prediction>, keys: seq<Key>, picks: seq<Key>)
    requires |picks| == |keys| && !plan.allowPreload && ArcInvariants.Shape(app)
    ensures var r := Ticked(app, plan, ps, keys, picks);
      && r.cap == plan.appCapacity && r.Size() <= r.cap && r.t1 <= app.t1 && r.t2 <= app.t2
      && (forall k :: k in r.val ==> k in app.val && r.val[k] == app.val[k])
      && r.b1 == app.b1 && r.b2 == app.b2 && r.p == app.p && r.hits == app.hits && r.misses == app.misses
  {
    ArcResizing.ResizeTrims(app, plan.appCapacity);
  }

  /** A round that preloads looks each key up once and leaves the last of them resident; it brings in
      nothing but placeholders for those keys. */
  lemma TickPreloads(
    app: ArcSpec.Arc, plan: ArbiterPlan, ps: seq<Prediction>, keys: seq<Key>, picks: seq<Key>, k: Key)
    requires |picks| == |keys| && plan.allowPreload && ArcInvariants.Shape(app)
    ensures var r := Ticked(app, plan, ps, keys, picks);
      && ArcInvariants.Shape(r) && r.cap == plan.appCapacity
      && r.hits + r.misses == app.hits + app.misses + |keys|
      && (keys != [] ==> r.Resident(Last(keys)))
      && (k in r.val ==> (k in app.val && r.val[k] == app.val[k]) || (k in keys && r.val[k] == [0x77]))
  {
    var q := ArcSpec.OnResize(app, plan.appCapacity);
    var h := ArcSpec.OnHint(q, AppIds(ps));
    ArcResizing.ResizeTrims(app, plan.appCapacity);
    ArcInvariants.ResizeKeepsShape(app, plan.appCapacity);
    ArcInvariants.HintKeepsShape(q, AppIds(ps));
    WarmingLooksUpEach(h, keys, picks);
    WarmingAddsOnlyPlaceholders(h, keys, picks, k);
  }

  /** Before that it hints what was predicted: with no keys to look up, the residents predicted are at
      the head of `t2`, in reverse order of their last mention. */
  lemma TickHints(app: ArcSpec.Arc, plan: ArbiterPlan, ps: seq<Prediction>)
    requires plan.allowPreload && ArcInvariants.Shape(app)
    ensures var q := ArcSpec.OnResize(app, plan.appCapacity);
      var r, hot := Ticked(app, plan, ps, [], []), ArcScan.Residents(q, AppIds(ps));
      r.t2 == ByLastMention(hot) + Excluding(q.t2, hot) && forall k :: r.Resident(k) <==> q.Resident(k)
  {
    ArcInvariants.ResizeKeepsShape(app, plan.appCapacity);
    ArcScan.HintPutsResidentsFirst(ArcSpec.OnResize(app, plan.appCapacity), AppIds(ps));
  }

  // ------------------------------------------------------------------
  // The calls.
  // ------------------------------------------------------------------

  datatype State = State(learner: Learner, events: seq<AppEvent>, app: ArcSpec.Arc)

  /** `Use` is a call on the app cache itself, which the facade hands out. */
  datatype Call =
    | Record(ev: AppEvent)
    | PredictNext
    | Tick(plan: ArbiterPlan, predictions: seq<Prediction>, warmKeys: seq<Key>, picks: seq<Key>)
    | Reset
    | Use(op: Op)
  {
    predicate Ok() {
      Tick? ==> |picks| == |warmKeys|
    }
  }

  /** What a call does to the app cache, as calls on the cache. */
  ghost function AppOps(app: ArcSpec.Arc, call: Call): seq<Op>
    requires call.Ok()
  {
    match call
    case Tick(plan, ps, keys, picks) =>
      [Resize(plan.appCapacity)]
      + (if !plan.allowPreload then []
         else [Hint(AppIds(ps))]
              + WarmOps(ArcSpec.OnHint(ArcSpec.OnResize(app, plan.appCapacity), AppIds(ps)), keys, picks))
    case Reset => [Clear]
    case Use(op) => [op]
    case _ => []
  }

  ghost function Step(f: State, call: Call): State
    requires call.Ok()
  {
    var app := ArcSpec.Run(f.app, AppOps(f.app, call));
    match call
    case Record(ev) => State(Observe(f.learner, ev), f.events + [ev], app)
    case Reset => State(Fresh(f.learner), [], app)
    case _ => f.(app := app)
  }

  lemma OneOp(s: ArcSpec.Arc, op: Op)
    ensures ArcSpec.Run(s, [op]) == ArcSpec.Step(s, op)
  {
    ArcSpec.RunSnoc(s, [], op);
    assert [] + [op] == [op];
  }

  lemma TickStep(f: State, plan: ArbiterPlan, ps: seq<Prediction>, keys: seq<Key>, picks: seq<Key>)
    requires |picks| == |keys|
    ensures Step(f, Tick(plan, ps, keys, picks)) == f.(app := Ticked(f.app, plan, ps, keys, picks))
  {
    var r := ArcSpec.OnResize(f.app, plan.appCapacity);
    var h := ArcSpec.OnHint(r, AppIds(ps));
    OneOp(f.app, Resize(plan.appCapacity));
    if plan.allowPreload {
      OneOp(r, Hint(AppIds(ps)));
      ArcSpec.RunConcat(r, [Hint(AppIds(ps))], WarmOps(h, keys, picks));
      ArcSpec.RunConcat(f.app, [Resize(plan.appCapacity)], [Hint(AppIds(ps))] + WarmOps(h, keys, picks));
    } else {
      assert [Resize(plan.appCapacity)] + [] == [Resize(plan.appCapacity)];
    }
  }

  lemma ResetStep(f: State)
    ensures Step(f, Reset) == State(Fresh(f.learner), [], ArcSpec.Empty(f.app.cap))
  {
    OneOp(f.app, Clear);
  }

  ghost predicate AllOk(calls: seq<Call>) {
    forall i :: 0 <= i < |calls| ==> calls[i].Ok()
  }

  ghost function Run(f: State, calls: seq<Call>): State
    requires AllOk(calls)
  {
    if calls == [] then f else Step(Run(f, Init(calls)), Last(calls))
  }

  /** The facade after construction. */
  function Start(l: Learner, capacity: nat): State {
    State(Fresh(l), [], ArcSpec.Empty(capacity))
  }

  /** The events recorded since the last reset. */
  function Recorded(calls: seq<Call>): seq<AppEvent> {
    if calls == [] then []
    else match Last(calls)
      case Record(ev) => Recorded(Init(calls)) + [ev]
      case Reset => []
      case _ => Recorded(Init(calls))
  }

  /** In every state that these calls reach, the stored log is what has been recorded since the last
      reset, and the predictor, which saw the events one at a time, holds what a fresh one holds
      after the whole stored log. */
  lemma {:induction false} PredictorIsReplayOfTheLog(l: Learner, capacity: nat, calls: seq<Call>)
    requires AllOk(calls)
    ensures var f := Run(Start(l, capacity), calls);
      && f.events == Recorded(calls)
      && f.learner == Replay(Fresh(l), f.events)
      && f.learner == if l.Counts? then Counts(Markov.Learn(f.events))
                      else Remembers(MostRecent.History(f.events))
  {
    var f := Run(Start(l, capacity), calls);
    if calls != [] {
      PredictorIsReplayOfTheLog(l, capacity, Init(calls));
    }
    ReplayInClosedForm(l, f.events);
  }

  /** So for the bounded history a suffix of the stored log will do, whatever calls led there, exactly
      if it holds enough opens. */
  lemma StoredSuffixSuffices(capacity: nat, calls: seq<Call>, limit: nat)
    requires AllOk(calls)
    ensures var f := Run(Start(Remembers([]), capacity), calls);
      f.learner == Replay(Remembers([]), Suffix(f.events, limit))
      <==> MostRecent.HoldsTheRecent(f.events, limit)
  {
    var f := Run(Start(Remembers([]), capacity), calls);
    PredictorIsReplayOfTheLog(Remembers([]), capacity, calls);
    MostRecent.SuffixSuffices(f.events, limit);
    ReplayInClosedForm(Remembers([]), Suffix(f.events, limit));
  }

  // ------------------------------------------------------------------
  // The app cache under the facade.
  // ------------------------------------------------------------------

  ghost function AllAppOps(f: State, calls: seq<Call>): seq<Op>
    requires AllOk(calls)
  {
    if calls == [] then []
    else AllAppOps(f, Init(calls)) + AppOps(Run(f, Init(calls)).app, Last(calls))
  }

  /** Whatever the facade does, its app cache makes a run of ARC, so every theorem on runs holds of
      it. */
  lemma {:induction false} AppCacheMakesARun(f: State, calls: seq<Call>)
    requires AllOk(calls)
    ensures Run(f, calls).app == ArcSpec.Run(f.app, AllAppOps(f, calls))
  {
    if calls != [] {
      AppCacheMakesARun(f, Init(calls));
      ArcSpec.RunConcat(f.app, AllAppOps(f, Init(calls)), AppOps(Run(f, Init(calls)).app, Last(calls)));
    }
  }

  /** Over every run of the facade, whatever the plans ask for, the app cache keeps its lists apart,
      and while it has a capacity it holds one more than that at most. */
  lemma AppCacheBounds(l: Learner, capacity: nat, calls: seq<Call>)
    requires AllOk(calls)
    ensures var app := Run(Start(l, capacity), calls).app;
      ArcInvariants.Shape(app) && (app.cap >= 1 ==> ArcResizing.Weak(app))
  {
    AppCacheMakesARun(Start(l, capacity), calls);
    ArcResizing.BoundsUnderResizing(capacity, AllAppOps(Start(l, capacity), calls));
  }
}
