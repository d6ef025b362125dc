/** Ranked predictions: the best `k` of a table of scores. */
module Predictions {
  import opened Sequences
  import opened CacheTypes
  import opened Greedy
  import opened Tallies

  type Scores = map<Key, real>

  function Score(scores: Scores, a: Key): real {
    if a in scores then scores[a] else 0.0
  }

  function ScoreOf(scores: Scores): Key -> real {
    a => Score(scores, a)
  }

  /** The sum of all scores. */
  ghost function Mass(scores: Scores): real {
    RealSum(scores.Keys, ScoreOf(scores))
  }

  // ------------------------------------------------------------------
  // Scores that are shares of a whole.
  // ------------------------------------------------------------------

  lemma InverseTimes(a: real, t: real)
    requires t > 0.0
    ensures Times(1.0 / t)(a) == a / t
  {
  }

  lemma AtMostOne(a: real, t: real)
    requires t > 0.0 && a <= t
    ensures a / t <= 1.0
  {
  }

  /** Scores that are shares `f(a) / t` of a sum that is at most `t` have mass at most 1. */
  lemma SharesMass(scores: Scores, f: Key -> real, t: real)
    requires t > 0.0 && RealSum(scores.Keys, f) <= t
    requires forall a :: a in scores ==> scores[a] == f(a) / t
    ensures Mass(scores) <= 1.0
  {
    forall a | a in scores ensures ScoreOf(scores)(a) <= After(Times(1.0 / t), f)(a) {
      InverseTimes(f(a), t);
    }
    RealSumMono(scores.Keys, scores.Keys, ScoreOf(scores), After(Times(1.0 / t), f));
    RealSumScale(scores.Keys, 1.0 / t, f);
    InverseTimes(RealSum(scores.Keys, f), t);
    AtMostOne(RealSum(scores.Keys, f), t);
  }

  lemma ScaledMass(scores: Scores, shares: Scores, w: real)
    requires scores.Keys == shares.Keys && forall a :: a in scores ==> scores[a] <= w * shares[a]
    ensures Mass(scores) <= w * Mass(shares)
  {
    forall a | a in scores ensures ScoreOf(scores)(a) <= After(Times(w), ScoreOf(shares))(a) {
      assert Times(w)(shares[a]) == w * shares[a];
    }
    RealSumMono(scores.Keys, scores.Keys, ScoreOf(scores), After(Times(w), ScoreOf(shares)));
    RealSumScale(scores.Keys, w, ScoreOf(shares));
  }

  lemma TimesAtMost(w: real, m: real)
    requires w >= 0.0 && m <= 1.0
    ensures w * m <= w
  {
  }

  /** Scores that are at most a `w`-fold share have mass at most `w`. */
  lemma WeightedSharesMass(scores: Scores, f: Key -> real, t: real, w: real)
    requires t > 0.0 && w >= 0.0 && RealSum(scores.Keys, f) <= t
    requires forall a :: a in scores ==> scores[a] <= w * (f(a) / t)
    ensures Mass(scores) <= w
  {
    var shares := map a | a in scores :: f(a) / t;
    assert shares.Keys == scores.Keys;
    SharesMass(shares, f, t);
    ScaledMass(scores, shares, w);
    TimesAtMost(w, Mass(shares));
  }

  /** `out` lists the `k` best-scored apps, best first, each once and with its score. */
  ghost predicate TopK(out: seq<Prediction>, scores: Scores, k: nat) {
    && |out| == Min(k, |scores|) && Distinct(AppIds(out))
    && (forall i :: 0 <= i < |out| ==> out[i].appId in scores && out[i].score == scores[out[i].appId])
    && (forall i, j :: 0 <= i < j < |out| ==> out[i].score >= out[j].score)
    && (forall i, a :: 0 <= i < |out| && a in scores && a !in AppIds(out) ==> scores[a] <= out[i].score)
  }

  /** With room for all of them, every scored app is predicted. */
  lemma TopKOfAll(out: seq<Prediction>, scores: Scores, k: nat, a: Key)
    requires TopK(out, scores, k) && k >= |scores| && a in scores
    ensures a in AppIds(out)
  {
    var ids := Elems(AppIds(out));
    forall x | x in ids ensures x in scores.Keys {
      var i :| 0 <= i < |out| && AppIds(out)[i] == x;
    }
    DistinctCount(AppIds(out));
    if a !in ids {
      CardMono(ids, scores.Keys - {a});
      CardWithout(scores.Keys, a);
    }
  }

  function TotalScore(out: seq<Prediction>): real {
    if out == [] then 0.0 else out[0].score + TotalScore(out[1..])
  }

  lemma {:induction false} TotalScoreIsSum(out: seq<Prediction>, scores: Scores)
    requires Distinct(AppIds(out))
    requires forall i :: 0 <= i < |out| ==> out[i].score == ScoreOf(scores)(out[i].appId)
    ensures TotalScore(out) == RealSum(Elems(AppIds(out)), ScoreOf(scores))
  {
    if out != [] {
      var ids := AppIds(out);
      assert AppIds(out[1..]) == ids[1..];
      TotalScoreIsSum(out[1..], scores);
      RealSumWithout(Elems(ids), ScoreOf(scores), ids[0]);
      assert Elems(ids) - {ids[0]} == Elems(ids[1..]);
    }
  }

  /** What is predicted carries no more score than the whole table. */
  lemma TopKMass(out: seq<Prediction>, scores: Scores, k: nat)
    requires TopK(out, scores, k) && forall a :: a in scores ==> scores[a] >= 0.0
    ensures TotalScore(out) <= Mass(scores)
  {
    TotalScoreIsSum(out, scores);
    forall a | a in Elems(AppIds(out)) ensures a in scores.Keys {
      var i :| 0 <= i < |out| && AppIds(out)[i] == a;
    }
    RealSumMono(Elems(AppIds(out)), scores.Keys, ScoreOf(scores), ScoreOf(scores));
  }

  function Falling(scores: Scores): Key -> Rank {
    a => Rank(0, -ScoreOf(scores)(a))
  }

  function Best(sorted: seq<Key>, scores: Scores, n: nat): seq<Prediction>
    requires n <= |sorted|
  {
    seq(n, i requires 0 <= i < n => Prediction(sorted[i], ScoreOf(scores)(sorted[i])))
  }

  /** Of two apps in a ranking the earlier one scores at least as much. */
  lemma RankedScores(sorted: seq<Key>, scores: Scores, i: nat, j: nat)
    requires IsRanking(sorted, scores.Keys, Falling(scores)) && i < j < |sorted|
    ensures sorted[i] in scores && sorted[j] in scores && scores[sorted[i]] >= scores[sorted[j]]
  {
    assert sorted[i] in Elems(sorted) && sorted[j] in Elems(sorted);
    var a, b := sorted[i], sorted[j];
    assert AtMost(Falling(scores)(a), Falling(scores)(b));
    assert ScoreOf(scores)(a) == scores[a] && ScoreOf(scores)(b) == scores[b];
  }

  lemma BestListsTheScores(sorted: seq<Key>, scores: Scores, n: nat)
    requires IsRanking(sorted, scores.Keys, Falling(scores)) && n <= |sorted|
    ensures var out := Best(sorted, scores, n);
      && AppIds(out) == sorted[..n] && Distinct(AppIds(out))
      && forall i :: 0 <= i < n ==> out[i].appId in scores && out[i].score == scores[out[i].appId]
  {
    var out := Best(sorted, scores, n);
    assert AppIds(out) == sorted[..n];
    forall i | 0 <= i < n ensures out[i].appId in scores && out[i].score == scores[out[i].appId] {
      assert sorted[i] in Elems(sorted);
      assert out[i] == Prediction(sorted[i], ScoreOf(scores)(sorted[i]));
    }
  }

  lemma BestIsTopK(sorted: seq<Key>, scores: Scores, k: nat)
    requires IsRanking(sorted, scores.Keys, Falling(scores))
    ensures |sorted| == |scores| && TopK(Best(sorted, scores, Min(k, |sorted|)), scores, k)
  {
    DistinctCount(sorted);
    var n := Min(k, |sorted|);
    var out := Best(sorted, scores, n);
    BestListsTheScores(sorted, scores, n);
    forall i, j | 0 <= i < j < n ensures out[i].score >= out[j].score {
      RankedScores(sorted, scores, i, j);
    }
    forall i, a | 0 <= i < n && a in scores && a !in sorted[..n] ensures scores[a] <= out[i].score {
      assert a in Elems(sorted);
      var j := IndexFrom(sorted, n, a);
      RankedScores(sorted, scores, i, j);
    }
  }

  /** Sorts by falling score, equal scores in any order, and keeps the first `k`. */
  method Top(scores: Scores, k: nat) returns (out: seq<Prediction>)
    ensures TopK(out, scores, k)
  {
    var sorted := Sort(scores.Keys, Falling(scores));
    BestIsTopK(sorted, scores, k);
    out := Best(sorted, scores, Min(k, |sorted|));
  }
}
