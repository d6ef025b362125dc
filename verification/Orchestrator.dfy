/** The facade that records events, ticks and resets. The predictor is the one that the
    configuration names; the arbiter's decision and the preloader's keys are inputs of a tick. */
module Orchestrator {
  import opened CacheTypes
  import opened AppEvents
  import opened EventLog
  import KvSpec
  import KvCache
  import Markov
  import MostRecent
  import ArcSpec
  import ArcCache
  import opened OrchestratorSpec

  /** The configured predictor. */
  datatype Predictor = Markov1(markov: Markov.Markov1Predictor) | Mru(mru: MostRecent.MRUPredictor)
  {
    ghost function Object(): object {
      if Markov1? then markov else mru
    }

    ghost predicate Valid()
      reads Object()
    {
      if Markov1? then markov.Valid() else mru.Valid()
    }

    ghost function Log(): seq<AppEvent>
      reads Object()
    {
      if Markov1? then markov.log else mru.log
    }

    ghost function View(): Learner
      reads Object()
    {
      if Markov1? then Counts(markov.View()) else Remembers(mru.history)
    }

    method Observe(ev: AppEvent)
      requires Valid()
      modifies Object()
      ensures Valid() && Log() == old(Log()) + [ev]
      ensures View() == OrchestratorSpec.Observe(old(View()), ev)
    {
      match this
      case Markov1(m) => m.Observe(ev);
      case Mru(r) => r.Observe(ev);
    }

    method Predict(k: nat) returns (out: seq<Prediction>)
      requires Valid()
      ensures Predicts(View(), k, out)
    {
      match this
      case Markov1(m) => out := m.Predict(k);
      case Mru(r) => out := r.Predict(k);
    }

    method Reset()
      modifies Object()
      ensures Valid() && Log() == [] && View() == Fresh(old(View()))
    {
      match this
      case Markov1(m) => m.Reset();
      case Mru(r) => r.Reset();
    }
  }

  class Orchestrator {
    const predictor: Predictor
    const storage: InMemoryStorage
    const kv: KvCache.KvCacheManager
    const appCache: ArcCache.ArcCache
    const modelCache: ArcCache.ArcCache
    const predictionTopK: nat

    /** The predictor has learned exactly the stored log, in order. */
    ghost predicate Synced()
      reads predictor.Object(), storage
    {
      predictor.Valid() && predictor.Log() == storage.events
    }

    ghost predicate CachesValid()
      reads appCache, appCache.t1, appCache.t2, modelCache, modelCache.t1, modelCache.t2
    {
      && appCache.Valid() && modelCache.Valid() && appCache != modelCache
      && appCache.t1 != modelCache.t1 && appCache.t1 != modelCache.t2
      && appCache.t2 != modelCache.t1 && appCache.t2 != modelCache.t2
    }

    ghost predicate Valid()
      reads predictor.Object(), storage, kv
      reads appCache, appCache.t1, appCache.t2, modelCache, modelCache.t1, modelCache.t2
    {
      Synced() && kv.Valid() && CachesValid()
    }

    /** The state of the abstract machine that the objects represent. */
    ghost function View(): State
      reads predictor.Object(), storage, appCache, appCache.t1, appCache.t2
    {
      State(predictor.View(), storage.events, appCache.View())
    }

    constructor (predictor: Predictor, appCapacity: nat, modelCapacity: nat, cfg: KvSpec.Config, topK: nat)
      requires predictor.Valid() && predictor.Log() == []
      ensures Valid() && this.predictor == predictor
      ensures View() == Start(predictor.View(), appCapacity)
    {
      this.predictor, predictionTopK := predictor, topK;
      storage := new InMemoryStorage();
      kv := new KvCache.KvCacheManager(cfg);
      appCache := new ArcCache.ArcCache(appCapacity);
      modelCache := new ArcCache.ArcCache(modelCapacity);
    }

    method RecordEvent(ev: AppEvent)
      requires Valid()
      modifies predictor.Object(), storage
      ensures Valid() && View() == Step(old(View()), Record(ev))
    {
      predictor.Observe(ev);
      storage.AppendEvent(ev);
    }

    method PredictNext(k: nat) returns (out: seq<Prediction>)
      requires Valid()
      ensures Predicts(Replay(Fresh(View().learner), storage.events), k, out)
    {
      ReplayInClosedForm(View().learner, storage.events);
      out := predictor.Predict(k);
    }

    method WarmOne(key: Key) returns (ghost pick: Key)
      requires CachesValid()
      modifies appCache, appCache.t1, appCache.t2
      ensures CachesValid()
      ensures appCache.View() == Warmed(old(appCache.View()), key, pick)
    {
      pick := key;
      var found := appCache.Get(key);
      if found.None? {
        pick := appCache.Put(key, WARM);
      }
    }

    /** The hint, and then a look and if need be a placeholder for each key to be warmed. */
    method Preload(predictions: seq<Prediction>, warmKeys: seq<Key>) returns (ghost picks: seq<Key>)
      requires CachesValid()
      modifies appCache, appCache.t1, appCache.t2
      ensures CachesValid() && |picks| == |warmKeys|
      ensures var h := ArcSpec.OnHint(old(appCache.View()), AppIds(predictions));
        appCache.View() == ArcSpec.Run(h, WarmOps(h, warmKeys, picks))
    {
      appCache.HintFuture(predictions);
      picks := WarmAll(warmKeys);
    }

    method WarmAll(warmKeys: seq<Key>) returns (ghost picks: seq<Key>)
      requires CachesValid()
      modifies appCache, appCache.t1, appCache.t2
      ensures CachesValid() && |picks| == |warmKeys|
      ensures var h := old(appCache.View());
        appCache.View() == ArcSpec.Run(h, WarmOps(h, warmKeys, picks))
    {
      ghost var h := appCache.View();
      picks := [];
      for i := 0 to |warmKeys|
        invariant CachesValid() && |picks| == i
        invariant appCache.View() == ArcSpec.Run(h, WarmOps(h, warmKeys[..i], picks))
      {
        ghost var pick := WarmOne(warmKeys[i]);
        WarmSnoc(h, warmKeys[..i], picks, warmKeys[i], pick);
        assert warmKeys[..i] + [warmKeys[i]] == warmKeys[..i + 1];
        picks := picks + [pick];
      }
      assert warmKeys[..|warmKeys|] == warmKeys;
    }

    /** The caches' part of a round. */
    method TickCaches(plan: ArbiterPlan, predictions: seq<Prediction>, warmKeys: seq<Key>)
      returns (ghost picks: seq<Key>)
      requires CachesValid()
      modifies appCache, appCache.t1, appCache.t2, modelCache, modelCache.t1, modelCache.t2
      ensures CachesValid() && |picks| == |warmKeys|
      ensures appCache.View() == Ticked(old(appCache.View()), plan, predictions, warmKeys, picks)
      ensures modelCache.View() == ArcSpec.OnResize(old(modelCache.View()), plan.modelCapacity)
    {
      appCache.Resize(plan.appCapacity);
      modelCache.Resize(plan.modelCapacity);
      picks := warmKeys;
      if plan.allowPreload {
        picks := Preload(predictions, warmKeys);
      }
    }

    /** The part of a round that leaves predictor and log alone. */
    method TickPools(plan: ArbiterPlan, predictions: seq<Prediction>, warmKeys: seq<Key>)
      returns (ghost picks: seq<Key>)
      requires kv.Valid() && CachesValid()
      modifies kv, appCache, appCache.t1, appCache.t2, modelCache, modelCache.t1, modelCache.t2
      ensures kv.Valid() && CachesValid() && |picks| == |warmKeys|
      ensures unchanged(predictor.Object(), storage)
      ensures appCache.View() == Ticked(old(appCache.View()), plan, predictions, warmKeys, picks)
      ensures modelCache.View() == ArcSpec.OnResize(old(modelCache.View()), plan.modelCapacity)
      ensures kv.totalTokens <= plan.kvBudget
        || forall b :: b in KvSpec.Tracked(kv.View()) ==> KvSpec.Protected(kv.cfg, plan.kvBudget, b)
    {
      picks := TickCaches(plan, predictions, warmKeys);
      kv.PlanAndRelease(plan.kvBudget);
    }

    /** One round: resize the caches, preload if allowed, and bring the KV cache within its budget. */
    method Tick(plan: ArbiterPlan, warmKeys: seq<Key>)
      returns (predictions: seq<Prediction>, ghost picks: seq<Key>)
      requires Valid()
      modifies kv, appCache, appCache.t1, appCache.t2, modelCache, modelCache.t1, modelCache.t2
      ensures Valid() && |picks| == |warmKeys|
      ensures Predicts(old(View()).learner, predictionTopK, predictions)
      ensures View() == Step(old(View()), Call.Tick(plan, predictions, warmKeys, picks))
      ensures modelCache.View() == ArcSpec.OnResize(old(modelCache.View()), plan.modelCapacity)
      ensures kv.totalTokens <= plan.kvBudget
        || forall b :: b in KvSpec.Tracked(kv.View()) ==> KvSpec.Protected(kv.cfg, plan.kvBudget, b)
    {
      ghost var f := View();
      predictions := predictor.Predict(predictionTopK);
      picks := TickPools(plan, predictions, warmKeys);
      assert Synced() && View() == f.(app := Ticked(f.app, plan, predictions, warmKeys, picks));
      TickStep(f, plan, predictions, warmKeys, picks);
    }

    method ClearCaches()
      requires CachesValid()
      modifies appCache, appCache.t1, appCache.t2, modelCache, modelCache.t1, modelCache.t2
      ensures CachesValid()
      ensures appCache.View() == ArcSpec.Empty(old(appCache.capacity))
      ensures modelCache.View() == ArcSpec.Empty(old(modelCache.capacity))
    {
      appCache.Clear();
      modelCache.Clear();
    }

    method Reset()
      requires Valid()
      modifies predictor.Object(), storage, kv
      modifies appCache, appCache.t1, appCache.t2, modelCache, modelCache.t1, modelCache.t2
      ensures Valid() && View() == Step(old(View()), Call.Reset)
      ensures modelCache.View() == ArcSpec.Empty(old(modelCache.capacity))
      ensures kv.View() == KvSpec.EMPTY
    {
      predictor.Reset();
      ClearCaches();
      kv.Reset();
      storage.Reset();
      ResetStep(old(View()));
    }
  }
}
