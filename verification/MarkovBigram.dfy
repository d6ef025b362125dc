/** The Python second-order Markov predictor: bigram, unigram, recency and hour-of-day shares,
    blended with fixed weights. */
module MarkovBigram {
  import opened Sequences
  import opened CacheTypes
  import opened AppEvents
  import opened Greedy
  import opened Tallies
  import opened Predictions
  import Markov

  datatype Weights = Weights(bigram: real, unigram: real, recency: real, hour: real)

  const DEFAULT_WEIGHTS: Weights := Weights(0.55, 0.20, 0.15, 0.10)

  datatype Bigram = Bigram(
    bigram: map<(AppId, AppId), Counter<AppId>>, next: map<AppId, Counter<AppId>>,
    unigram: Counter<AppId>, hours: map<int, Counter<AppId>>, lastIdx: map<AppId, nat>,
    n: nat, prev1: AppId, prev2: AppId, lastHour: Option<int>)

  const EMPTY: Bigram := Bigram(map[], map[], map[], map[], map[], 0, "", "", None)

  function Row<K>(m: map<K, Counter<AppId>>, k: K): Counter<AppId> {
    if k in m then m[k] else map[]
  }

  function AddTo<K>(m: map<K, Counter<AppId>>, k: K, a: AppId): map<K, Counter<AppId>> {
    m[k := Increment(Row(m, k), a)]
  }

  function Observed(s: Bigram, ev: AppEvent): Bigram {
    if !Opens(ev) then s
    else
      var a := ev.appId;
      Bigram(
        if s.prev1 != "" && s.prev2 != "" then AddTo(s.bigram, (s.prev2, s.prev1), a) else s.bigram,
        if s.prev1 != "" then AddTo(s.next, s.prev1, a) else s.next,
        Increment(s.unigram, a),
        if ev.hourOfDay.Some? then AddTo(s.hours, ev.hourOfDay.value, a) else s.hours,
        s.lastIdx[a := s.n + 1], s.n + 1, a, s.prev1, ev.hourOfDay)
  }

  function Learn(log: seq<AppEvent>): Bigram {
    if log == [] then EMPTY else Observed(Learn(Init(log)), Last(log))
  }

  /** No app was last opened in the future. */
  ghost predicate Timely(s: Bigram) {
    forall a :: a in s.lastIdx ==> s.lastIdx[a] <= s.n
  }

  /** The unigram side learns what the first-order predictor learns, so its flow conservation
      holds here too; and the stamps of last use never run ahead of the count of opens. */
  lemma {:induction false} LearnsTheMarkovTables(log: seq<AppEvent>)
    ensures var s, t := Learn(log), Markov.Learn(log);
      && s.next == t.transitions && s.unigram == t.unigram && s.n == t.grand && s.prev1 == t.last
      && Timely(s)
  {
    if log != [] {
      LearnsTheMarkovTables(Init(log));
    }
  }

  // ------------------------------------------------------------------
  // The blend.
  // ------------------------------------------------------------------

  /** `w` times each app's share of a context, out of one more than the context has seen. */
  ghost function ContextShares(w: real, ctx: Counter<AppId>): Scores {
    map a | a in ctx :: w * (ctx[a] as real / (Tally(ctx) + 1) as real)
  }

  /** How much of its share an app keeps, by how long ago it was last opened. */
  function RecencyAt(n: nat, lastIdx: map<AppId, nat>, a: AppId): real {
    var slowing := 1.0 + (n - At(lastIdx, a)) as real / 50.0;
    if slowing == 0.0 then 0.0 else 1.0 / slowing
  }

  function Recency(s: Bigram, a: AppId): real {
    RecencyAt(s.n, s.lastIdx, a)
  }

  function RecentShare(w: real, recency: real, count: nat, grand: nat): real {
    if grand == 0 then 0.0 else w * recency * (count as real / grand as real)
  }

  ghost function RecencyShares(w: real, s: Bigram): Scores {
    map a | a in s.unigram :: RecentShare(w, Recency(s, a), s.unigram[a], Tally(s.unigram))
  }

  function Plus(x: Scores, y: Scores): Scores {
    map a | a in x.Keys + y.Keys :: Score(x, a) + Score(y, a)
  }

  /** What followed the last two apps, and what opened at the hour of the last open. */
  function PairContext(s: Bigram): Counter<AppId> {
    if s.prev2 == "" then map[] else Row(s.bigram, (s.prev2, s.prev1))
  }

  function HourContext(s: Bigram): Counter<AppId> {
    if s.lastHour.None? then map[] else Row(s.hours, s.lastHour.value)
  }

  ghost function Blend(w: Weights, s: Bigram): Scores {
    if s.prev1 == "" then map[]
    else
      Plus(Plus(Plus(ContextShares(w.bigram, PairContext(s)), ContextShares(w.unigram, Row(s.next, s.prev1))),
                RecencyShares(w.recency, s)),
           ContextShares(w.hour, HourContext(s)))
  }

  lemma PlusMass(x: Scores, y: Scores)
    ensures Mass(Plus(x, y)) == Mass(x) + Mass(y)
  {
    var all := x.Keys + y.Keys;
    assert Plus(x, y).Keys == all;
    RealSumAdd(all, ScoreOf(x), ScoreOf(y), ScoreOf(Plus(x, y)));
    RealSumZeros(x.Keys, all, ScoreOf(x));
    RealSumZeros(y.Keys, all, ScoreOf(y));
  }

  ghost predicate NonNegative(x: Scores) {
    forall a :: a in x ==> x[a] >= 0.0
  }

  lemma PlusNonNegative(x: Scores, y: Scores)
    requires NonNegative(x) && NonNegative(y)
    ensures NonNegative(Plus(x, y))
  {
  }

  lemma ShareIsNonNegative(w: real, part: nat, whole: nat)
    requires w >= 0.0 && whole > 0
    ensures part as real / whole as real >= 0.0 && w * (part as real / whole as real) >= 0.0
  {
  }

  lemma ContextSharesMass(w: real, ctx: Counter<AppId>)
    requires w >= 0.0
    ensures NonNegative(ContextShares(w, ctx)) && Mass(ContextShares(w, ctx)) <= w
  {
    var scores := ContextShares(w, ctx);
    forall a | a in ctx ensures scores[a] >= 0.0 {
      ShareIsNonNegative(w, ctx[a], Tally(ctx) + 1);
    }
    assert scores.Keys == ctx.Keys;
    RealTally(ctx.Keys, ctx);
    WeightedSharesMass(scores, RealAt(ctx), (Tally(ctx) + 1) as real, w);
  }

  lemma InverseRange(x: real)
    ensures x >= 0.0 ==> 0.0 <= 1.0 / (1.0 + x) <= 1.0
  {
  }

  lemma RecencyRange(s: Bigram, a: AppId)
    requires Timely(s)
    ensures 0.0 <= Recency(s, a) <= 1.0
  {
    InverseRange((s.n - At(s.lastIdx, a)) as real / 50.0);
  }

  lemma Damped(w: real, d: real, share: real)
    requires w >= 0.0 && 0.0 <= d <= 1.0 && share >= 0.0
    ensures 0.0 <= w * d * share <= w * share
  {
  }

  lemma RecencyShareRange(w: real, s: Bigram, a: AppId)
    requires w >= 0.0 && Timely(s) && a in s.unigram && Tally(s.unigram) > 0
    ensures 0.0 <= RecencyShares(w, s)[a] <= w * (s.unigram[a] as real / Tally(s.unigram) as real)
  {
    ShareIsNonNegative(w, s.unigram[a], Tally(s.unigram));
    RecencyRange(s, a);
    Damped(w, Recency(s, a), s.unigram[a] as real / Tally(s.unigram) as real);
  }

  lemma AllRecencyShares(w: real, s: Bigram)
    requires w >= 0.0 && Timely(s) && Tally(s.unigram) > 0
    ensures forall a :: a in s.unigram ==>
      0.0 <= RecencyShares(w, s)[a] <= w * (RealAt(s.unigram)(a) / Tally(s.unigram) as real)
  {
    forall a | a in s.unigram
      ensures 0.0 <= RecencyShares(w, s)[a] <= w * (RealAt(s.unigram)(a) / Tally(s.unigram) as real)
    {
      RecencyShareRange(w, s, a);
    }
  }

  lemma RecencySharesMass(w: real, s: Bigram)
    requires w >= 0.0 && Timely(s)
    ensures NonNegative(RecencyShares(w, s)) && Mass(RecencyShares(w, s)) <= w
  {
    var scores, total := RecencyShares(w, s), Tally(s.unigram);
    assert scores.Keys == s.unigram.Keys;
    if total == 0 {
      RealSumZeros({}, scores.Keys, ScoreOf(scores));
    } else {
      AllRecencyShares(w, s);
      RealTally(s.unigram.Keys, s.unigram);
      WeightedSharesMass(scores, RealAt(s.unigram), total as real, w);
    }
  }

  lemma BlendMass(w: Weights, s: Bigram)
    requires Timely(s) && w.bigram >= 0.0 && w.unigram >= 0.0 && w.recency >= 0.0 && w.hour >= 0.0
    ensures NonNegative(Blend(w, s))
    ensures Mass(Blend(w, s)) <= w.bigram + w.unigram + w.recency + w.hour
  {
    if s.prev1 != "" {
      var bi, hour := PairContext(s), HourContext(s);
      var b, u := ContextShares(w.bigram, bi), ContextShares(w.unigram, Row(s.next, s.prev1));
      var r, h := RecencyShares(w.recency, s), ContextShares(w.hour, hour);
      ContextSharesMass(w.bigram, bi);
      ContextSharesMass(w.unigram, Row(s.next, s.prev1));
      RecencySharesMass(w.recency, s);
      ContextSharesMass(w.hour, hour);
      PlusMass(b, u);
      PlusMass(Plus(b, u), r);
      PlusMass(Plus(Plus(b, u), r), h);
      PlusNonNegative(b, u);
      PlusNonNegative(Plus(b, u), r);
      PlusNonNegative(Plus(Plus(b, u), r), h);
    }
  }

  // ------------------------------------------------------------------
  // The tables and the blend, said of the log.
  // ------------------------------------------------------------------

  lemma OnlyOpensTeach(s: Bigram, ev: AppEvent)
    ensures Observed(s, ev) != s <==> ev.eventType == AppOpen || ev.eventType == AppForeground
  {
  }

  /** The app opened before the last one. */
  function Previous(apps: seq<AppId>): AppId {
    if |apps| < 2 then "" else apps[|apps| - 2]
  }

  /** How often `c` was opened right after `a` and then `b`. */
  function Triples(apps: seq<AppId>, a: AppId, b: AppId, c: AppId): nat {
    if |apps| < 3 then 0
    else
      Triples(Init(apps), a, b, c)
      + if apps[|apps| - 3] == a && apps[|apps| - 2] == b && apps[|apps| - 1] == c then 1 else 0
  }

  /** How many opens came before and up to the last one of `a`. */
  function LastOpen(apps: seq<AppId>, a: AppId): (n: nat)
    ensures n <= |apps|
  {
    if apps == [] then 0 else if Last(apps) == a then |apps| else LastOpen(Init(apps), a)
  }

  /** The hour of the last event that opened an app. */
  function LastHour(log: seq<AppEvent>): Option<int> {
    if log == [] then None
    else if Last(log).eventType == AppOpen || Last(log).eventType == AppForeground then Last(log).hourOfDay
    else LastHour(Init(log))
  }

  /** How often the hour was `h` when an app opened, any app or `a`. */
  function OpensAt(log: seq<AppEvent>, h: int): nat {
    if log == [] then 0
    else
      var ev := Last(log);
      OpensAt(Init(log), h)
      + if (ev.eventType == AppOpen || ev.eventType == AppForeground) && ev.hourOfDay == Some(h) then 1 else 0
  }

  function OpensOfAt(log: seq<AppEvent>, h: int, a: AppId): nat {
    if log == [] then 0
    else
      var ev := Last(log);
      OpensOfAt(Init(log), h, a)
      + if (ev.eventType == AppOpen || ev.eventType == AppForeground) && ev.hourOfDay == Some(h)
           && ev.appId == a then 1 else 0
  }

  lemma OpenedSnoc(log: seq<AppEvent>)
    requires log != []
    ensures var ev, apps := Last(log), Opened(Init(log));
      Opened(log) == if ev.eventType == AppOpen || ev.eventType == AppForeground then apps + [ev.appId] else apps
  {
  }

  lemma SnocFacts(apps: seq<AppId>, x: AppId)
    ensures Init(apps + [x]) == apps && Last(apps + [x]) == x
    ensures Previous(apps + [x]) == if apps == [] then "" else Last(apps)
  {
  }

  /** The contexts: the last two apps, the hour of the last open, and when each app was opened last. */
  lemma {:induction false} ContextFromLog(log: seq<AppEvent>, a: AppId)
    ensures var s, apps := Learn(log), Opened(log);
      && s.prev1 == (if apps == [] then "" else Last(apps)) && s.prev2 == Previous(apps)
      && s.n == |apps| && s.lastHour == LastHour(log) && At(s.lastIdx, a) == LastOpen(apps, a)
  {
    if log != [] {
      ContextFromLog(Init(log), a);
      OpenedSnoc(log);
      SnocFacts(Opened(Init(log)), Last(log).appId);
    }
  }

  lemma TriplesSnoc(apps: seq<AppId>, x: AppId, a: AppId, b: AppId, c: AppId)
    requires a != "" && b != ""
    ensures Triples(apps + [x], a, b, c)
      == Triples(apps, a, b, c) + if Previous(apps) == a && Last(apps) == b && x == c then 1 else 0
    ensures Markov.Pairs(apps + [x], a, b)
      == Markov.Pairs(apps, a, b) + if apps != [] && Last(apps) == a && x == b then 1 else 0
  {
    SnocFacts(apps, x);
  }

  lemma BigramStep(s: Bigram, ev: AppEvent, a: AppId, b: AppId, c: AppId)
    requires ev.eventType == AppOpen || ev.eventType == AppForeground
    ensures var row, row' := Row(s.bigram, (a, b)), Row(Observed(s, ev).bigram, (a, b));
      if a != "" && b != "" && s.prev2 == a && s.prev1 == b then
        Tally(row') == Tally(row) + 1 && At(row', c) == At(row, c) + if ev.appId == c then 1 else 0
      else row' == row
  {
    TallyIncrement(Row(s.bigram, (a, b)), ev.appId);
  }

  /** The bigram table counts adjacent triples of opens, and all that followed a pair of apps with ids
      is how often the pair came, less one if it came last. */
  lemma {:induction false} BigramsFromLog(log: seq<AppEvent>, a: AppId, b: AppId, c: AppId)
    requires a != "" && b != ""
    ensures var apps, row := Opened(log), Row(Learn(log).bigram, (a, b));
      && At(row, c) == Triples(apps, a, b, c)
      && Tally(row) + (if Previous(apps) == a && Last(apps) == b then 1 else 0) == Markov.Pairs(apps, a, b)
  {
    if log != [] {
      var apps, ev := Opened(Init(log)), Last(log);
      BigramsFromLog(Init(log), a, b, c);
      OpenedSnoc(log);
      assert Learn(log) == Observed(Learn(Init(log)), ev);
      if ev.eventType == AppOpen || ev.eventType == AppForeground {
        ContextFromLog(Init(log), a);
        BigramStep(Learn(Init(log)), ev, a, b, c);
        TriplesSnoc(apps, ev.appId, a, b, c);
        SnocFacts(apps, ev.appId);
      }
    }
  }

  /** The hour table counts opens by hour. */
  lemma {:induction false} HoursFromLog(log: seq<AppEvent>, h: int, a: AppId)
    ensures var row := Row(Learn(log).hours, h);
      At(row, a) == OpensOfAt(log, h, a) && Tally(row) == OpensAt(log, h)
  {
    if log != [] {
      HoursFromLog(Init(log), h, a);
      TallyIncrement(Row(Learn(Init(log)).hours, h), Last(log).appId);
    }
  }

  ghost predicate KeysIn<K>(m: map<K, Counter<AppId>>, apps: set<AppId>) {
    forall k :: k in m ==> m[k].Keys <= apps
  }

  lemma AddToKeys<K>(m: map<K, Counter<AppId>>, k: K, a: AppId, apps: set<AppId>)
    requires KeysIn(m, apps)
    ensures KeysIn(m, apps + {a}) && KeysIn(AddTo(m, k, a), apps + {a})
  {
  }

  lemma {:induction false} KeysAreApps(log: seq<AppEvent>)
    ensures var s := Learn(log);
      && s.unigram.Keys == Elems(Opened(log))
      && KeysIn(s.bigram, s.unigram.Keys) && KeysIn(s.next, s.unigram.Keys) && KeysIn(s.hours, s.unigram.Keys)
  {
    if log != [] {
      var s, ev := Learn(Init(log)), Last(log);
      KeysAreApps(Init(log));
      AddToKeys(s.bigram, (s.prev2, s.prev1), ev.appId, s.unigram.Keys);
      AddToKeys(s.next, s.prev1, ev.appId, s.unigram.Keys);
      if ev.hourOfDay.Some? {
        AddToKeys(s.hours, ev.hourOfDay.value, ev.appId, s.unigram.Keys);
      } else {
        AddToKeys(s.hours, 0, ev.appId, s.unigram.Keys);
      }
      assert Opens(ev) ==> Learn(log).unigram.Keys == s.unigram.Keys + {ev.appId};
      OpenedSnoc(log);
      SnocFacts(Opened(Init(log)), Last(log).appId);
    }
  }

  /** `w` times a share. */
  function Weighed(w: real, part: nat, whole: nat): real {
    if whole == 0 then 0.0 else w * (part as real / whole as real)
  }

  function WeighedByAge(w: real, age: nat, part: nat, whole: nat): real {
    Weighed(w * (1.0 / (1.0 + age as real / 50.0)), part, whole)
  }

  /** How often `x` followed when the last two apps came before, out of how often those came. */
  function FromPair(w: real, apps: seq<AppId>, x: AppId): real
    requires apps != []
  {
    var a, b := Previous(apps), Last(apps);
    if a == "" then 0.0 else Weighed(w, Triples(apps, a, b, x), Markov.Pairs(apps, a, b))
  }

  /** How often `x` followed the last app, out of how often that was opened. */
  function FromLast(w: real, apps: seq<AppId>, x: AppId): real
    requires apps != []
  {
    Weighed(w, Markov.Pairs(apps, Last(apps), x), Markov.Count(apps, Last(apps)))
  }

  /** The share of `x` in all opens, damped by how many opens ago its last one was. */
  function FromRecency(w: real, apps: seq<AppId>, x: AppId): real {
    if x !in apps then 0.0
    else WeighedByAge(w, |apps| - LastOpen(apps, x), Markov.Count(apps, x), |apps|)
  }

  /** How often `x` was opened at the hour of the last open, out of one more than all opens then. */
  function FromHour(w: real, log: seq<AppEvent>, x: AppId): real {
    match LastHour(log)
    case None => 0.0
    case Some(h) => Weighed(w, OpensOfAt(log, h, x), OpensAt(log, h) + 1)
  }

  lemma ContextScore(w: real, ctx: Counter<AppId>, x: AppId, part: nat, whole: nat)
    requires At(ctx, x) == part && Tally(ctx) + 1 == whole
    ensures Score(ContextShares(w, ctx), x) == Weighed(w, part, whole)
  {
    if x !in ctx {
      assert 0.0 / whole as real == 0.0;
    }
  }

  lemma PairContextFromLog(log: seq<AppEvent>, x: AppId)
    requires Opened(log) != [] && Last(Opened(log)) != ""
    ensures var apps, ctx := Opened(log), PairContext(Learn(log));
      var a, b := Previous(apps), Last(apps);
      if a == "" then ctx == map[]
      else At(ctx, x) == Triples(apps, a, b, x) && Tally(ctx) + 1 == Markov.Pairs(apps, a, b)
  {
    var apps := Opened(log);
    ContextFromLog(log, x);
    if Previous(apps) != "" {
      BigramsFromLog(log, Previous(apps), Last(apps), x);
    }
  }

  lemma AppContextFromLog(log: seq<AppEvent>, x: AppId)
    requires Opened(log) != [] && Last(Opened(log)) != ""
    ensures var apps, s := Opened(log), Learn(log);
      var ctx := Row(s.next, s.prev1);
      At(ctx, x) == Markov.Pairs(apps, Last(apps), x) && Tally(ctx) + 1 == Markov.Count(apps, Last(apps))
  {
    var apps, s, t := Opened(log), Learn(log), Markov.Learn(log);
    LearnsTheMarkovTables(log);
    Markov.LearnsFromOpens(log);
    Markov.TablesCountTheLog(apps, Last(apps), x);
    Markov.TotalsFromLog(apps, Last(apps));
    assert Row(s.next, s.prev1) == t.Row(t.last);
  }

  lemma CountsFromLog(log: seq<AppEvent>, x: AppId)
    ensures var apps, s := Opened(log), Learn(log);
      && At(s.unigram, x) == Markov.Count(apps, x) && Tally(s.unigram) == |apps| && LastOpen(apps, x) <= |apps|
  {
    var apps, t := Opened(log), Markov.Learn(log);
    ContextFromLog(log, x);
    LearnsTheMarkovTables(log);
    Markov.LearnsFromOpens(log);
    Markov.TablesCountTheLog(apps, x, x);
    Markov.Reachable(apps);
  }

  lemma RecencyOf(w: real, s: Bigram, x: AppId, age: nat, count: nat, grand: nat)
    requires x in s.unigram && s.unigram[x] == count && Tally(s.unigram) == grand
    requires s.n - At(s.lastIdx, x) == age
    ensures Score(RecencyShares(w, s), x) == WeighedByAge(w, age, count, grand)
  {
    var damp := 1.0 / (1.0 + age as real / 50.0);
    assert Recency(s, x) == damp;
    assert w * damp * 0.0 == 0.0;
  }

  lemma RecencyFacts(log: seq<AppEvent>, x: AppId)
    ensures var s, apps := Learn(log), Opened(log);
      && (x in s.unigram <==> x in apps)
      && (x in apps ==>
            && s.unigram[x] == Markov.Count(apps, x) && Tally(s.unigram) == |apps|
            && s.n - At(s.lastIdx, x) == |apps| - LastOpen(apps, x))
  {
    CountsFromLog(log, x);
    ContextFromLog(log, x);
    KeysAreApps(log);
    assert x in Learn(log).unigram <==> x in Elems(Opened(log));
  }

  lemma RecencyScore(w: real, log: seq<AppEvent>, x: AppId)
    ensures Score(RecencyShares(w, Learn(log)), x) == FromRecency(w, Opened(log), x)
  {
    var s, apps := Learn(log), Opened(log);
    RecencyFacts(log, x);
    if x in apps {
      RecencyOf(w, s, x, |apps| - LastOpen(apps, x), Markov.Count(apps, x), |apps|);
    }
  }

  lemma PairScore(w: real, log: seq<AppEvent>, x: AppId)
    requires Opened(log) != [] && Last(Opened(log)) != ""
    ensures Score(ContextShares(w, PairContext(Learn(log))), x) == FromPair(w, Opened(log), x)
  {
    var apps, ctx := Opened(log), PairContext(Learn(log));
    var a, b := Previous(apps), Last(apps);
    PairContextFromLog(log, x);
    if a != "" {
      ContextScore(w, ctx, x, Triples(apps, a, b, x), Markov.Pairs(apps, a, b));
    }
  }

  lemma LastScore(w: real, log: seq<AppEvent>, x: AppId)
    requires Opened(log) != [] && Last(Opened(log)) != ""
    ensures var s := Learn(log);
      Score(ContextShares(w, Row(s.next, s.prev1)), x) == FromLast(w, Opened(log), x)
  {
    var apps := Opened(log);
    AppContextFromLog(log, x);
    ContextScore(w, Row(Learn(log).next, Learn(log).prev1), x,
                 Markov.Pairs(apps, Last(apps), x), Markov.Count(apps, Last(apps)));
  }

  lemma HourContextFromLog(log: seq<AppEvent>, x: AppId)
    ensures match LastHour(log)
      case None => HourContext(Learn(log)) == map[]
      case Some(h) =>
        At(HourContext(Learn(log)), x) == OpensOfAt(log, h, x) && Tally(HourContext(Learn(log))) == OpensAt(log, h)
  {
    ContextFromLog(log, x);
    if LastHour(log).Some? {
      HoursFromLog(log, LastHour(log).value, x);
    }
  }

  lemma HourScore(w: real, log: seq<AppEvent>, x: AppId)
    ensures Score(ContextShares(w, HourContext(Learn(log))), x) == FromHour(w, log, x)
  {
    HourContextFromLog(log, x);
    match LastHour(log)
    case None =>
    case Some(h) => ContextScore(w, HourContext(Learn(log)), x, OpensOfAt(log, h, x), OpensAt(log, h) + 1);
  }

  lemma PlusScore(x: Scores, y: Scores, a: AppId)
    ensures Score(Plus(x, y), a) == Score(x, a) + Score(y, a)
  {
  }

  lemma BlendScore(w: Weights, s: Bigram, x: AppId)
    requires s.prev1 != ""
    ensures Score(Blend(w, s), x)
      == Score(ContextShares(w.bigram, PairContext(s)), x)
         + Score(ContextShares(w.unigram, Row(s.next, s.prev1)), x)
         + Score(RecencyShares(w.recency, s), x)
         + Score(ContextShares(w.hour, HourContext(s)), x)
  {
    var b, u := ContextShares(w.bigram, PairContext(s)), ContextShares(w.unigram, Row(s.next, s.prev1));
    var r, h := RecencyShares(w.recency, s), ContextShares(w.hour, HourContext(s));
    PlusScore(b, u, x);
    PlusScore(Plus(b, u), r, x);
    PlusScore(Plus(Plus(b, u), r), h, x);
  }

  lemma RowKeys<K>(m: map<K, Counter<AppId>>, k: K, apps: set<AppId>)
    requires KeysIn(m, apps)
    ensures Row(m, k).Keys <= apps
  {
  }

  lemma BlendKeys(w: Weights, s: Bigram)
    requires s.prev1 != "" && PairContext(s).Keys <= s.unigram.Keys
    requires Row(s.next, s.prev1).Keys <= s.unigram.Keys && HourContext(s).Keys <= s.unigram.Keys
    ensures Blend(w, s).Keys == s.unigram.Keys
  {
  }

  lemma BlendCandidates(w: Weights, log: seq<AppEvent>, x: AppId)
    requires Opened(log) != [] && Last(Opened(log)) != ""
    ensures x in Blend(w, Learn(log)) <==> x in Opened(log)
  {
    var s := Learn(log);
    ContextFromLog(log, x);
    KeysAreApps(log);
    RowKeys(s.bigram, (s.prev2, s.prev1), s.unigram.Keys);
    RowKeys(s.next, s.prev1, s.unigram.Keys);
    if s.lastHour.Some? {
      RowKeys(s.hours, s.lastHour.value, s.unigram.Keys);
    }
    BlendKeys(w, s);
    assert x in s.unigram <==> x in Elems(Opened(log));
  }

  /** Unless there is no last app, or it has no id, exactly the apps in the log are candidates, and
      each scores what the log says. */
  lemma BlendFromLog(w: Weights, log: seq<AppEvent>, x: AppId)
    ensures var apps, blend := Opened(log), Blend(w, Learn(log));
      if apps == [] || Last(apps) == "" then blend == map[]
      else
        && (x in blend <==> x in apps)
        && Score(blend, x)
           == FromPair(w.bigram, apps, x) + FromLast(w.unigram, apps, x) + FromRecency(w.recency, apps, x)
              + FromHour(w.hour, log, x)
  {
    ContextFromLog(log, x);
    if Opened(log) != [] && Last(Opened(log)) != "" {
      BlendCandidates(w, log, x);
      BlendScore(w, Learn(log), x);
      PairScore(w.bigram, log, x);
      LastScore(w.unigram, log, x);
      RecencyScore(w.recency, log, x);
      HourScore(w.hour, log, x);
    }
  }

  /** With the default weights. */
  lemma DefaultBlendFromLog(log: seq<AppEvent>, x: AppId)
    requires Opened(log) != [] && Last(Opened(log)) != ""
    ensures var apps := Opened(log);
      Score(Blend(DEFAULT_WEIGHTS, Learn(log)), x)
        == FromPair(0.55, apps, x) + FromLast(0.20, apps, x) + FromRecency(0.15, apps, x) + FromHour(0.10, log, x)
  {
    BlendFromLog(DEFAULT_WEIGHTS, log, x);
  }

  /** Whatever has been observed and however many predictions are asked for: with the default
      weights the scores are not negative and together at most 1. */
  lemma PredictionsAreSubProbabilities(log: seq<AppEvent>, k: nat, out: seq<Prediction>)
    requires TopK(out, Blend(DEFAULT_WEIGHTS, Learn(log)), k)
    ensures forall i :: 0 <= i < |out| ==> 0.0 <= out[i].score
    ensures TotalScore(out) <= 1.0
  {
    LearnsTheMarkovTables(log);
    BlendMass(DEFAULT_WEIGHTS, Learn(log));
    TopKMass(out, Blend(DEFAULT_WEIGHTS, Learn(log)), k);
  }

  // ------------------------------------------------------------------
  // The predictor object.
  // ------------------------------------------------------------------

  /** Sums a counter's values, in whatever order it yields them. */
  method AddUp(m: Counter<AppId>) returns (total: nat)
    ensures total == Tally(m)
  {
    total := 0;
    var todo := m.Keys;
    while todo != {}
      invariant todo <= m.Keys && total + SumOf(todo, AtOf(m)) == Tally(m)
      decreases |todo|
    {
      var a :| a in todo;
      SumWithout(todo, AtOf(m), a);
      total, todo := total + m[a], todo - {a};
    }
  }

  /** `r` is `x` with the shares of `y` added, but for those still to do. */
  ghost predicate Accumulating(r: Scores, x: Scores, y: Scores, todo: set<AppId>) {
    && (forall a :: a in r <==> a in x || (a in y && a !in todo))
    && (forall a :: a in r ==> r[a] == Score(x, a) + if a in todo then 0.0 else Score(y, a))
  }

  lemma AccumulateOne(r: Scores, x: Scores, y: Scores, todo: set<AppId>, a: AppId)
    requires Accumulating(r, x, y, todo) && a in y && a in todo
    ensures Accumulating(r[a := Score(r, a) + y[a]], x, y, todo - {a})
  {
  }

  lemma AccumulatedAll(r: Scores, x: Scores, y: Scores)
    requires Accumulating(r, x, y, {})
    ensures r == Plus(x, y)
  {
    assert r.Keys == x.Keys + y.Keys;
  }

  /** Adds a table of shares to the candidates, one app at a time in whatever order. */
  method Accumulate(candidates: Scores, shares: Scores) returns (r: Scores)
    ensures r == Plus(candidates, shares)
  {
    r := candidates;
    var todo := shares.Keys;
    while todo != {}
      invariant todo <= shares.Keys && Accumulating(r, candidates, shares, todo)
      decreases |todo|
    {
      var a :| a in todo;
      AccumulateOne(r, candidates, shares, todo, a);
      r := r[a := Score(r, a) + shares[a]];
      todo := todo - {a};
    }
    AccumulatedAll(r, candidates, shares);
  }

  class MarkovBigramPredictor {
    const w: Weights
    var bigram: map<(AppId, AppId), Counter<AppId>>
    var unigramNext: map<AppId, Counter<AppId>>
    var unigram: Counter<AppId>
    var hourCounts: map<int, Counter<AppId>>
    var lastIdx: map<AppId, nat>
    var n: nat
    var prev1: AppId
    var prev2: AppId
    var lastHour: Option<int>

    ghost function View(): Bigram
      reads this
    {
      Bigram(bigram, unigramNext, unigram, hourCounts, lastIdx, n, prev1, prev2, lastHour)
    }

    constructor (w: Weights)
      ensures View() == EMPTY && this.w == w
    {
      this.w := w;
      bigram, unigramNext, unigram, hourCounts, lastIdx := map[], map[], map[], map[], map[];
      n, prev1, prev2, lastHour := 0, "", "", None;
    }

    method Observe(ev: AppEvent)
      modifies this
      ensures View() == Observed(old(View()), ev)
    {
      if !ev.eventType.AppOpen? && !ev.eventType.AppForeground? {
        return;
      }
      var app := ev.appId;
      CountPair(app, ev.hourOfDay);
      n := n + 1;
      unigram := Increment(unigram, app);
      lastIdx := lastIdx[app := n];
      lastHour := ev.hourOfDay;
      prev2 := prev1;
      prev1 := app;
    }

    /** The tables that are keyed by what came before, or by the hour. */
    method CountPair(app: AppId, hour: Option<int>)
      modifies this`unigramNext, this`bigram, this`hourCounts
      ensures unigramNext == if prev1 != "" then AddTo(old(unigramNext), prev1, app) else old(unigramNext)
      ensures bigram == if prev1 != "" && prev2 != "" then AddTo(old(bigram), (prev2, prev1), app) else old(bigram)
      ensures hourCounts == if hour.Some? then AddTo(old(hourCounts), hour.value, app) else old(hourCounts)
    {
      if prev1 != "" {
        unigramNext := AddTo(unigramNext, prev1, app);
      }
      if prev1 != "" && prev2 != "" {
        bigram := AddTo(bigram, (prev2, prev1), app);
      }
      if hour.Some? {
        hourCounts := AddTo(hourCounts, hour.value, app);
      }
    }

    /** The shares of a context, which may be missing. */
    method Shares(weight: real, ctx: Counter<AppId>) returns (r: Scores)
      ensures r == ContextShares(weight, ctx)
    {
      var total := AddUp(ctx);
      r := map a | a in ctx :: weight * (ctx[a] as real / (total + 1) as real);
    }

    method Predict(topK: nat) returns (out: seq<Prediction>)
      ensures TopK(out, Blend(w, View()), topK)
    {
      if prev1 == "" {
        return [];
      }
      var bi := Shares(w.bigram, if prev2 == "" then map[] else Row(bigram, (prev2, prev1)));
      var uni := Shares(w.unigram, Row(unigramNext, prev1));
      var candidates := Accumulate(bi, uni);
      var recent := RecentShares();
      candidates := Accumulate(candidates, recent);
      var hour := Shares(w.hour, if lastHour.None? then map[] else Row(hourCounts, lastHour.value));
      candidates := Accumulate(candidates, hour);
      out := Top(candidates, topK);
    }

    method RecentShares() returns (r: Scores)
      ensures r == RecencyShares(w.recency, View())
    {
      var grand := AddUp(unigram);
      r := map a | a in unigram :: RecentShare(w.recency, RecencyAt(n, lastIdx, a), unigram[a], grand);
    }

    /** Clears the tables; the hour of the last event is not touched, but says nothing while the
        tables are empty. */
    method Reset()
      modifies this
      ensures View() == EMPTY.(lastHour := old(lastHour))
    {
      bigram, unigramNext, unigram, hourCounts, lastIdx := map[], map[], map[], map[], map[];
      n, prev1, prev2 := 0, "", "";
    }
  }

  /** So a predictor that was reset and then observes anything that opens an app is in the state of
      a fresh one, and until then it predicts nothing, as a fresh one does. */
  lemma ResetIsFresh(hour: Option<int>, ev: AppEvent, w: Weights)
    ensures Blend(w, EMPTY.(lastHour := hour)) == Blend(w, EMPTY)
    ensures Opens(ev) ==> Observed(EMPTY.(lastHour := hour), ev) == Observed(EMPTY, ev)
  {
  }
}
