/** The first-order Markov predictor: transition counts, learned online, and smoothed scores. */
module Markov {
  import opened Sequences
  import opened CacheTypes
  import opened AppEvents
  import opened Greedy
  import opened Tallies
  import opened Predictions

  datatype Tables = Tables(
    transitions: map<AppId, Counter<AppId>>, totals: Counter<AppId>, unigram: Counter<AppId>,
    grand: nat, last: AppId)
  {
    function Row(a: AppId): Counter<AppId> {
      if a in transitions then transitions[a] else map[]
    }
  }

  const EMPTY: Tables := Tables(map[], map[], map[], 0, "")

  /** An app opens. An empty id is counted but starts no transition. */
  function Open(s: Tables, a: AppId): Tables {
    var t := if s.last == "" then s
             else s.(transitions := s.transitions[s.last := Increment(s.Row(s.last), a)],
                     totals := Increment(s.totals, s.last));
    t.(unigram := Increment(s.unigram, a), grand := s.grand + 1, last := a)
  }

  function Observed(s: Tables, ev: AppEvent): Tables {
    if Opens(ev) then Open(s, ev.appId) else s
  }

  function OpenAll(apps: seq<AppId>): Tables {
    if apps == [] then EMPTY else Open(OpenAll(Init(apps)), Last(apps))
  }

  /** What a fresh predictor knows after a log. */
  function Learn(log: seq<AppEvent>): Tables {
    if log == [] then EMPTY else Observed(Learn(Init(log)), Last(log))
  }

  /** Apps that open and apps that come to the foreground teach the predictor; nothing else does. */
  lemma OnlyOpensTeach(s: Tables, ev: AppEvent)
    ensures Observed(s, ev) != s <==> ev.eventType == AppOpen || ev.eventType == AppForeground
  {
  }

  lemma {:induction false} LearnsFromOpens(log: seq<AppEvent>)
    ensures Learn(log) == OpenAll(Opened(log))
  {
    if log != [] {
      LearnsFromOpens(Init(log));
      if Opens(Last(log)) {
        assert Init(Opened(log)) == Opened(Init(log));
      }
    }
  }

  // ------------------------------------------------------------------
  // The tables against the sequence of opened apps.
  // ------------------------------------------------------------------

  function Count(apps: seq<AppId>, a: AppId): nat {
    if apps == [] then 0 else Count(Init(apps), a) + if Last(apps) == a then 1 else 0
  }

  /** How often `b` was opened right after `a`. */
  function Pairs(apps: seq<AppId>, a: AppId, b: AppId): nat {
    if |apps| < 2 then 0
    else Pairs(Init(apps), a, b) + if Last(Init(apps)) == a && Last(apps) == b then 1 else 0
  }

  /** How often `b` was opened first of all, or right after an app with an empty id. */
  function Starts(apps: seq<AppId>, b: AppId): nat {
    if apps == [] then 0
    else Starts(Init(apps), b)
         + if Last(apps) == b && (|apps| == 1 || Last(Init(apps)) == "") then 1 else 0
  }

  /** The tables are exactly the counts of the opens and of the adjacent pairs of opens. */
  lemma {:induction false} TablesCountTheLog(apps: seq<AppId>, a: AppId, b: AppId)
    ensures var s := OpenAll(apps);
      && s.last == (if apps == [] then "" else Last(apps)) && s.grand == |apps|
      && At(s.unigram, a) == Count(apps, a)
      && At(s.Row(a), b) == if a == "" then 0 else Pairs(apps, a, b)
  {
    if apps != [] {
      TablesCountTheLog(Init(apps), a, b);
    }
  }

  // ------------------------------------------------------------------
  // Flow conservation.
  // ------------------------------------------------------------------

  function InTo(s: Tables, b: AppId): AppId -> nat {
    a => At(s.Row(a), b)
  }

  /** Transitions into `b`, from anywhere. */
  ghost function Incoming(s: Tables, b: AppId): nat {
    SumOf(s.transitions.Keys, InTo(s, b))
  }

  /** Every row total is the sum of its row. */
  ghost predicate Totalled(s: Tables) {
    forall a :: At(s.totals, a) == Tally(s.Row(a))
  }

  /** Every target of a transition has been opened, and rows hold positive counts. */
  ghost predicate Targets(s: Tables) {
    forall a, b :: b in s.Row(a) ==> b in s.unigram && s.Row(a)[b] >= 1
  }

  /** One open moves one unit along: out of the last app and into the opened one. */
  lemma OpenOutgoing(s: Tables, a: AppId, b: AppId)
    ensures Tally(Open(s, a).Row(b)) == Tally(s.Row(b)) + if s.last != "" && s.last == b then 1 else 0
    ensures At(Open(s, a).unigram, b) == At(s.unigram, b) + if a == b then 1 else 0
  {
    if s.last != "" {
      TallyIncrement(s.Row(s.last), a);
    }
  }

  lemma OpenKeepsTotalled(s: Tables, a: AppId)
    requires Totalled(s)
    ensures Totalled(Open(s, a))
  {
    var r := Open(s, a);
    forall x ensures At(r.totals, x) == Tally(r.Row(x)) {
      OpenOutgoing(s, a, x);
      assert At(s.totals, x) == Tally(s.Row(x));
    }
  }

  lemma OpenKeepsTargets(s: Tables, a: AppId)
    requires Targets(s)
    ensures Targets(Open(s, a))
  {
    var r := Open(s, a);
    forall x, b | b in r.Row(x) ensures b in r.unigram && r.Row(x)[b] >= 1 {
      if s.last != "" && x == s.last {
        assert r.Row(x) == Increment(s.Row(x), a);
        assert b == a || b in s.Row(x);
      } else {
        assert r.Row(x) == s.Row(x);
      }
    }
  }

  lemma OpenIncoming(s: Tables, a: AppId, b: AppId)
    ensures Incoming(Open(s, a), b) == Incoming(s, b) + if s.last != "" && a == b then 1 else 0
  {
    var r := Open(s, a);
    if s.last != "" {
      SumWithout(r.transitions.Keys, InTo(r, b), s.last);
      SumSame(r.transitions.Keys - {s.last}, InTo(r, b), InTo(s, b));
      if s.last in s.transitions {
        SumWithout(s.transitions.Keys, InTo(s, b), s.last);
        assert r.transitions.Keys == s.transitions.Keys;
      } else {
        assert r.transitions.Keys - {s.last} == s.transitions.Keys;
      }
    } else {
      SumSame(s.transitions.Keys, InTo(r, b), InTo(s, b));
    }
  }

  /** Flow conservation: an app with an id has been opened once for each transition out of it, and
      once more if it is the last; and once for each transition into it, and once more for each
      time it started a chain. */
  lemma {:induction false} FlowConservation(apps: seq<AppId>, a: AppId)
    ensures var s := OpenAll(apps);
      && (a != "" ==> At(s.unigram, a) == Tally(s.Row(a)) + if s.last == a then 1 else 0)
      && At(s.unigram, a) == Incoming(s, a) + Starts(apps, a)
  {
    if apps != [] {
      FlowConservation(Init(apps), a);
      TablesCountTheLog(Init(apps), a, a);
      OpenIncoming(OpenAll(Init(apps)), Last(apps), a);
      OpenOutgoing(OpenAll(Init(apps)), Last(apps), a);
    }
  }

  lemma {:induction false} Reachable(apps: seq<AppId>)
    ensures Totalled(OpenAll(apps)) && Targets(OpenAll(apps))
    ensures OpenAll(apps).grand == Tally(OpenAll(apps).unigram)
  {
    if apps != [] {
      var s := OpenAll(Init(apps));
      Reachable(Init(apps));
      OpenKeepsTotalled(s, Last(apps));
      OpenKeepsTargets(s, Last(apps));
      TallyIncrement(s.unigram, Last(apps));
    }
  }

  /** With no empty ids the only chain is the one that the log starts. */
  lemma {:induction false} OneStart(apps: seq<AppId>, a: AppId)
    requires "" !in apps
    ensures Starts(apps, a) == if apps != [] && apps[0] == a then 1 else 0
  {
    if apps != [] {
      OneStart(Init(apps), a);
    }
  }

  // ------------------------------------------------------------------
  // Scores.
  // ------------------------------------------------------------------

  /** Laplace-smoothed shares of the last app's row, or plain shares of all opens when no app has
      yet followed the last one. */
  function ScoreTable(s: Tables): Scores {
    if s.last == "" then map[]
    else if s.last in s.transitions then
      var total := At(s.totals, s.last) + |s.unigram|;
      map b | b in s.transitions[s.last] ::
        if total == 0 then 0.0 else (s.transitions[s.last][b] + 1) as real / total as real
    else
      map b | b in s.unigram :: if s.grand == 0 then 0.0 else s.unigram[b] as real / s.grand as real
  }

  lemma ShareRange(part: nat, whole: nat)
    requires 0 < part <= whole
    ensures 0.0 < part as real / whole as real <= 1.0
  {
  }

  function PlusOne(m: Counter<AppId>): AppId -> real {
    a => At(m, a) as real + 1.0
  }

  lemma SmoothedSum(m: Counter<AppId>)
    ensures RealSum(m.Keys, PlusOne(m)) == (Tally(m) + |m|) as real
  {
    var one: AppId -> real := a => 1.0;
    RealTally(m.Keys, m);
    RealCard(m.Keys, one);
    RealSumAdd(m.Keys, RealAt(m), one, PlusOne(m));
  }

  lemma SmoothedScores(s: Tables)
    requires Totalled(s) && Targets(s) && s.last in s.transitions && s.last != ""
    ensures forall a :: a in ScoreTable(s) ==> 0.0 < ScoreTable(s)[a] <= 1.0
    ensures Mass(ScoreTable(s)) <= 1.0
  {
    var row, scores := s.transitions[s.last], ScoreTable(s);
    var total := At(s.totals, s.last) + |s.unigram|;
    assert s.Row(s.last) == row && total == Tally(row) + |s.unigram|;
    assert row.Keys <= s.unigram.Keys;
    CardMono(row.Keys, s.unigram.Keys);
    if total == 0 {
      assert scores.Keys == {};
    } else {
      forall a | a in scores
        ensures scores[a] == PlusOne(row)(a) / total as real && 0.0 < scores[a] <= 1.0
      {
        CountInTally(row, a);
        ShareRange(row[a] + 1, total);
      }
      SmoothedSum(row);
      assert scores.Keys == row.Keys;
      SharesMass(scores, PlusOne(row), total as real);
    }
  }

  lemma FallbackScores(s: Tables)
    requires s.last != "" && s.last !in s.transitions && s.grand == Tally(s.unigram)
    requires forall a :: a in s.unigram ==> s.unigram[a] >= 1
    ensures forall a :: a in ScoreTable(s) ==> 0.0 < ScoreTable(s)[a] <= 1.0
    ensures Mass(ScoreTable(s)) <= 1.0
  {
    var scores := ScoreTable(s);
    assert scores.Keys == s.unigram.Keys;
    forall a | a in s.unigram
      ensures s.grand > 0 && scores[a] == RealAt(s.unigram)(a) / s.grand as real && 0.0 < scores[a] <= 1.0
    {
      CountInTally(s.unigram, a);
      ShareRange(s.unigram[a], s.grand);
    }
    RealTally(s.unigram.Keys, s.unigram);
    if s.grand > 0 {
      SharesMass(scores, RealAt(s.unigram), s.grand as real);
    } else {
      assert scores.Keys == {};
    }
  }

  lemma {:induction false} UnigramsArePositive(apps: seq<AppId>)
    ensures forall a :: a in OpenAll(apps).unigram ==> OpenAll(apps).unigram[a] >= 1
  {
    if apps != [] {
      UnigramsArePositive(Init(apps));
    }
  }

  /** Whatever has been observed and however many predictions are asked for: each score is in
      (0, 1], and together they are at most 1. */
  lemma PredictionsAreSubProbabilities(log: seq<AppEvent>, k: nat, out: seq<Prediction>)
    requires TopK(out, ScoreTable(Learn(log)), k)
    ensures forall i :: 0 <= i < |out| ==> 0.0 < out[i].score <= 1.0
    ensures TotalScore(out) <= 1.0
  {
    var apps := Opened(log);
    var s := Learn(log);
    LearnsFromOpens(log);
    Reachable(apps);
    UnigramsArePositive(apps);
    if s.last == "" {
      assert out == [];
    } else if s.last in s.transitions {
      SmoothedScores(s);
    } else {
      FallbackScores(s);
    }
    TopKMass(out, ScoreTable(s), k);
  }

  // ------------------------------------------------------------------
  // Scores and predictions, said of the log.
  // ------------------------------------------------------------------

  lemma {:induction false} UnigramKeys(apps: seq<AppId>)
    ensures OpenAll(apps).unigram.Keys == Elems(apps)
  {
    if apps != [] {
      UnigramKeys(Init(apps));
      assert apps == Init(apps) + [Last(apps)];
    }
  }

  lemma {:induction false} RowsAreNotEmpty(apps: seq<AppId>)
    ensures forall a :: a in OpenAll(apps).transitions ==> |OpenAll(apps).transitions[a]| >= 1
  {
    if apps != [] {
      RowsAreNotEmpty(Init(apps));
      var s, b := OpenAll(Init(apps)), Last(apps);
      assert b in Increment(s.Row(s.last), b);
    }
  }

  ghost predicate EndsIn(apps: seq<AppId>, a: AppId) {
    apps != [] && Last(apps) == a && a != ""
  }

  lemma TotalsFromLog(apps: seq<AppId>, a: AppId)
    requires EndsIn(apps, a)
    ensures var s := OpenAll(apps);
      && s.last == a && s.grand == |apps| && At(s.totals, a) == Tally(s.Row(a)) == Count(apps, a) - 1
      && |s.unigram| == |Elems(apps)|
  {
    var s := OpenAll(apps);
    Reachable(apps);
    TablesCountTheLog(apps, a, a);
    FlowConservation(apps, a);
    UnigramKeys(apps);
    assert |s.unigram| == |s.unigram.Keys|;
    assert At(s.totals, a) == Tally(s.Row(a));
  }

  lemma RowFromLog(apps: seq<AppId>, a: AppId, b: AppId)
    requires a != ""
    ensures var row := OpenAll(apps).Row(a);
      if b in row then row[b] == Pairs(apps, a, b) > 0 else Pairs(apps, a, b) == 0
  {
    var s := OpenAll(apps);
    Reachable(apps);
    TablesCountTheLog(apps, a, b);
    assert b in s.Row(a) ==> s.Row(a)[b] >= 1;
  }

  /** The last app of the log has been followed exactly if it was opened before. */
  lemma FollowedBefore(apps: seq<AppId>, a: AppId)
    requires EndsIn(apps, a)
    ensures a in OpenAll(apps).transitions <==> Count(apps, a) > 1
  {
    var s := OpenAll(apps);
    TotalsFromLog(apps, a);
    RowsAreNotEmpty(apps);
    if a in s.transitions {
      assert s.Row(a) == s.transitions[a] && s.Row(a) != map[];
      var b :| b in s.Row(a);
      RowFromLog(apps, a, b);
      CountInTally(s.Row(a), b);
    } else {
      assert s.Row(a) == map[];
    }
  }

  /** The scores, from the log alone, after an app that was opened before: those that have followed it
      score by how often they did, plus one, out of the times it was followed plus the number of
      apps. */
  lemma FollowersScore(apps: seq<AppId>, a: AppId, b: AppId)
    requires EndsIn(apps, a) && Count(apps, a) > 1
    ensures var scores := ScoreTable(OpenAll(apps));
      && (b in scores <==> Pairs(apps, a, b) > 0)
      && (b in scores ==>
            scores[b] == (Pairs(apps, a, b) + 1) as real / (Count(apps, a) - 1 + |Elems(apps)|) as real)
  {
    FollowedBefore(apps, a);
    TotalsFromLog(apps, a);
    RowFromLog(apps, a, b);
    assert OpenAll(apps).Row(a) == OpenAll(apps).transitions[a];
  }

  /** After an app that is new, every app scores by its share of all opens; and after none, or one
      without an id, no app scores. */
  lemma SharesOfAllOpens(apps: seq<AppId>, a: AppId, b: AppId)
    ensures apps == [] || Last(apps) == "" ==> ScoreTable(OpenAll(apps)) == map[]
    ensures EndsIn(apps, a) && Count(apps, a) == 1 ==>
      var scores := ScoreTable(OpenAll(apps));
      && (b in scores <==> b in apps)
      && (b in scores ==> scores[b] == Count(apps, b) as real / |apps| as real)
  {
    var s := OpenAll(apps);
    TablesCountTheLog(apps, a, b);
    TablesCountTheLog(apps, b, b);
    if EndsIn(apps, a) && Count(apps, a) == 1 {
      FollowedBefore(apps, a);
      TotalsFromLog(apps, a);
      UnigramKeys(apps);
      assert b in s.unigram <==> b in Elems(apps);
    }
  }

  lemma ScoresFewerThanApps(apps: seq<AppId>)
    ensures |ScoreTable(OpenAll(apps))| <= |Elems(apps)|
  {
    var s, scores := OpenAll(apps), ScoreTable(OpenAll(apps));
    Reachable(apps);
    UnigramKeys(apps);
    forall b | b in scores ensures b in Elems(apps) {
      assert s.last in s.transitions ==> b in s.Row(s.last);
    }
    CardMono(scores.Keys, Elems(apps));
    assert |scores| == |scores.Keys|;
  }

  lemma LargerShare(p: nat, q: nat, n: nat)
    requires n > 0 && p as real / n as real >= q as real / n as real
    ensures p >= q
  {
    assert (p as real / n as real) * n as real == p as real;
    assert (q as real / n as real) * n as real == q as real;
  }

  lemma ScoresRankFollowers(apps: seq<AppId>, a: AppId, b: AppId, c: AppId)
    requires EndsIn(apps, a) && Count(apps, a) > 1
    requires var scores := ScoreTable(OpenAll(apps));
      b in scores && (c in scores ==> scores[b] >= scores[c])
    ensures Pairs(apps, a, b) >= Pairs(apps, a, c)
  {
    var scores := ScoreTable(OpenAll(apps));
    FollowersScore(apps, a, b);
    FollowersScore(apps, a, c);
    if c in scores {
      LargerShare(Pairs(apps, a, b) + 1, Pairs(apps, a, c) + 1, Count(apps, a) - 1 + |Elems(apps)|);
    }
  }

  /** What is predicted after an app that was opened before: apps that have followed it, with their
      scores. */
  lemma PredictsFollowers(log: seq<AppEvent>, a: AppId, k: nat, out: seq<Prediction>, i: nat)
    requires TopK(out, ScoreTable(Learn(log)), k) && i < |out|
    requires EndsIn(Opened(log), a) && Count(Opened(log), a) > 1
    ensures var apps, b := Opened(log), out[i].appId;
      && Pairs(apps, a, b) > 0
      && out[i].score == (Pairs(apps, a, b) + 1) as real / (Count(apps, a) - 1 + |Elems(apps)|) as real
  {
    LearnsFromOpens(log);
    FollowersScore(Opened(log), a, out[i].appId);
  }

  /** With room for all apps, each that has followed it is predicted. */
  lemma PredictsAllFollowers(log: seq<AppEvent>, a: AppId, k: nat, out: seq<Prediction>, b: AppId)
    requires TopK(out, ScoreTable(Learn(log)), k) && k >= |Elems(Opened(log))|
    requires EndsIn(Opened(log), a) && Pairs(Opened(log), a, b) > 0 && Count(Opened(log), a) > 1
    ensures b in AppIds(out)
  {
    LearnsFromOpens(log);
    FollowersScore(Opened(log), a, b);
    ScoresFewerThanApps(Opened(log));
    TopKOfAll(out, ScoreTable(Learn(log)), k, b);
  }

  /** The apps that have followed the last one more often come first, and none is left out for one
      that has followed it less often. */
  lemma OftenestFollowersFirst(log: seq<AppEvent>, a: AppId, k: nat, out: seq<Prediction>, i: nat, b: AppId)
    requires TopK(out, ScoreTable(Learn(log)), k) && i < |out|
    requires EndsIn(Opened(log), a) && Count(Opened(log), a) > 1
    requires b !in AppIds(out) || exists j :: i < j < |out| && out[j].appId == b
    ensures Pairs(Opened(log), a, out[i].appId) >= Pairs(Opened(log), a, b)
  {
    LearnsFromOpens(log);
    var scores := ScoreTable(Learn(log));
    if b in AppIds(out) {
      var j :| i < j < |out| && out[j].appId == b;
      assert scores[out[i].appId] >= scores[b];
    }
    ScoresRankFollowers(Opened(log), a, out[i].appId, b);
  }

  // ------------------------------------------------------------------
  // The predictor object.
  // ------------------------------------------------------------------

  class Markov1Predictor {
    var transitions: map<AppId, Counter<AppId>>
    var totals: Counter<AppId>
    var unigram: Counter<AppId>
    var grandTotal: nat
    var last: AppId

    /** Everything observed since construction or reset. */
    ghost var log: seq<AppEvent>

    ghost function View(): Tables
      reads this
    {
      Tables(transitions, totals, unigram, grandTotal, last)
    }

    ghost predicate Valid()
      reads this
    {
      View() == Learn(log)
    }

    constructor ()
      ensures Valid() && log == []
    {
      transitions, totals, unigram, grandTotal, last := map[], map[], map[], 0, "";
      log := [];
    }

    method Observe(ev: AppEvent)
      requires Valid()
      modifies this
      ensures Valid() && log == old(log) + [ev] && View() == Observed(old(View()), ev)
    {
      log := log + [ev];
      assert Init(log) == old(log);
      if !ev.eventType.AppOpen? && !ev.eventType.AppForeground? {
        return;
      }
      if last != "" {
        var row := if last in transitions then transitions[last] else map[];
        transitions := transitions[last := Increment(row, ev.appId)];
        totals := Increment(totals, last);
      }
      unigram := Increment(unigram, ev.appId);
      grandTotal := grandTotal + 1;
      last := ev.appId;
    }

    method Predict(topK: nat) returns (out: seq<Prediction>)
      requires Valid()
      ensures TopK(out, ScoreTable(View()), topK)
    {
      if last == "" {
        return [];
      }
      LearnsFromOpens(log);
      Reachable(Opened(log));
      var scores: Scores;
      if last !in transitions {
        scores := map b | b in unigram :: if grandTotal == 0 then 0.0 else unigram[b] as real / grandTotal as real;
      } else {
        var total := At(totals, last) + |unigram|;
        ghost var row := View().Row(last);
        forall b | b in row ensures total > 0 {
          CountInTally(row, b);
          assert At(totals, last) == Tally(row);
        }
        scores := map b | b in transitions[last] :: (transitions[last][b] + 1) as real / total as real;
      }
      assert scores == ScoreTable(View());
      out := Top(scores, topK);
    }

    method Reset()
      modifies this
      ensures Valid() && log == []
    {
      transitions, totals, unigram, grandTotal, last := map[], map[], map[], 0, "";
      log := [];
    }
  }
}
