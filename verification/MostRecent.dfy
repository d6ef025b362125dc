/** The most-recently-used predictor: a bounded history of opened apps. */
module MostRecent {
  import opened Sequences
  import opened CacheTypes
  import opened AppEvents
  import opened Greedy
  import opened EventLog

  const HISTORY_CAP: nat := 256

  /** What remains of a log in the predictor. */
  function History(log: seq<AppEvent>): seq<AppId> {
    Suffix(Opened(log), HISTORY_CAP)
  }

  /** The last 256 apps opened, in order. */
  lemma HistoryHolds(log: seq<AppEvent>, i: nat)
    requires i < Min(256, |Opened(log)|)
    ensures |History(log)| == Min(256, |Opened(log)|)
    ensures History(log)[i] == Opened(log)[|Opened(log)| - |History(log)| + i]
  {
  }

  /** The history takes in one more app and lets go of the oldest when it is full. */
  function Pushed(h: seq<AppId>, a: AppId): seq<AppId> {
    if |h| >= HISTORY_CAP then h[1..] + [a] else h + [a]
  }

  lemma HistorySnoc(log: seq<AppEvent>, ev: AppEvent)
    ensures History(log + [ev])
      == if ev.eventType == AppOpen || ev.eventType == AppForeground then Pushed(History(log), ev.appId)
         else History(log)
  {
    assert Init(log + [ev]) == log;
    if Opens(ev) {
      var apps := Opened(log);
      assert Suffix(apps + [ev.appId], HISTORY_CAP) == Pushed(Suffix(apps, HISTORY_CAP), ev.appId);
    }
  }

  /** The suffix of the log holds as many opens as the history remembers, or all there are. */
  predicate HoldsTheRecent(log: seq<AppEvent>, limit: nat) {
    var n := |Opened(Suffix(log, limit))|;
    n >= HISTORY_CAP || n == |Opened(log)|
  }

  lemma SameSuffix<T>(a: seq<T>, b: seq<T>, n: nat)
    ensures Suffix(b, n) == Suffix(a + b, n) <==> |b| >= n || a == []
  {
    if |b| >= n {
      assert Suffix(b, n) == Suffix(a + b, n);
    } else if a == [] {
      assert a + b == b;
    } else {
      assert |Suffix(a + b, n)| > |b|;
    }
  }

  /** Exactly such suffixes will do instead of the whole log. */
  lemma SuffixSuffices(log: seq<AppEvent>, limit: nat)
    ensures History(Suffix(log, limit)) == History(log) <==> HoldsTheRecent(log, limit)
  {
    if limit < |log| {
      var cut := |log| - limit;
      OpenedConcat(log[..cut], log[cut..]);
      assert log[..cut] + log[cut..] == log;
      SameSuffix(Opened(log[..cut]), Opened(log[cut..]), HISTORY_CAP);
    }
  }

  // ------------------------------------------------------------------
  // The order of prediction.
  // ------------------------------------------------------------------

  function LastIndexOf(h: seq<AppId>, a: AppId): int {
    if h == [] then -1 else if Last(h) == a then |h| - 1 else LastIndexOf(Init(h), a)
  }

  lemma {:induction false} LastIndexRange(h: seq<AppId>, a: AppId)
    ensures -1 <= LastIndexOf(h, a) < |h|
    ensures a in h <==> LastIndexOf(h, a) >= 0
    ensures a in h ==> h[LastIndexOf(h, a)] == a
    ensures forall j :: LastIndexOf(h, a) < j < |h| ==> h[j] != a
  {
    if h != [] {
      LastIndexRange(Init(h), a);
      assert h == Init(h) + [Last(h)];
    }
  }

  /** Ranks the latest first. */
  function Newest(h: seq<AppId>): AppId -> Rank {
    a => Rank(-LastIndexOf(h, a), 0.0)
  }

  lemma SortedWithout(l: seq<AppId>, x: AppId, h: seq<AppId>)
    requires Distinct(l) && SortedBy(l, Newest(h))
    ensures SortedBy(Without(l, x), Newest(h + [x]))
  {
    var r := Without(l, x);
    WithoutFacts(l, x);
    forall i, j | 0 <= i < j < |r|
      ensures AtMost(Newest(h + [x])(r[i]), Newest(h + [x])(r[j]))
    {
      assert r[i] in r && r[j] in r;
      assert Init(h + [x]) == h;
      assert Newest(h + [x])(r[i]) == Newest(h)(r[i]) && Newest(h + [x])(r[j]) == Newest(h)(r[j]);
      if x in l {
        var k := WithoutIndex(l, x);
        assert AtMost(Newest(h)(l[if i < k then i else i + 1]), Newest(h)(l[if j < k then j else j + 1]));
      } else {
        WithoutAbsent(l, x);
      }
    }
  }

  /** The order of last mention is the ranking by last index. */
  lemma {:induction false} LastMentionIsRanking(h: seq<AppId>)
    ensures IsRanking(ByLastMention(h), Elems(h), Newest(h))
  {
    ByLastMentionFacts(h);
    if h != [] {
      var t, x := Init(h), Last(h);
      var l := ByLastMention(t);
      LastMentionIsRanking(t);
      assert h == t + [x];
      LastMentionSnoc(t, x);
      SortedWithout(l, x, t);
      WithoutFacts(l, x);
      forall y | y in Without(l, x) ensures AtMost(Newest(h)(x), Newest(h)(y)) {
        LastIndexRange(t, y);
      }
      ConsRanked(x, Without(l, x), Newest(h));
    }
  }

  lemma RanksDiffer(h: seq<AppId>, a: AppId, b: AppId)
    requires a in h && b in h && AtMost(Newest(h)(a), Newest(h)(b)) && AtMost(Newest(h)(b), Newest(h)(a))
    ensures a == b
  {
    LastIndexRange(h, a);
    LastIndexRange(h, b);
  }

  lemma RankingTail<T>(s: seq<T>, items: set<T>, rank: T -> Rank)
    requires IsRanking(s, items, rank) && s != []
    ensures IsRanking(s[1..], items - {s[0]}, rank)
  {
    assert s == [s[0]] + s[1..];
    assert forall x :: x in Elems(s[1..]) <==> x in Elems(s) && x != s[0];
  }

  /** No two apps share a last index, so there is one ranking only. */
  lemma {:induction false} OneRanking(h: seq<AppId>, s: seq<AppId>, t: seq<AppId>, items: set<AppId>)
    requires IsRanking(s, items, Newest(h)) && IsRanking(t, items, Newest(h))
    requires forall a :: a in items ==> a in h
    ensures s == t
    decreases |s|
  {
    DistinctCount(s);
    DistinctCount(t);
    if s != [] {
      assert s[0] in Elems(t) && t[0] in Elems(s);
      var i :| 0 <= i < |t| && t[i] == s[0];
      var j :| 0 <= j < |s| && s[j] == t[0];
      assert AtMost(Newest(h)(s[0]), Newest(h)(s[j])) && AtMost(Newest(h)(t[0]), Newest(h)(t[i]));
      RanksDiffer(h, s[0], t[0]);
      RankingTail(s, items, Newest(h));
      RankingTail(t, items, Newest(h));
      OneRanking(h, s[1..], t[1..], items - {s[0]});
    }
  }

  // ------------------------------------------------------------------
  // The predictor object.
  // ------------------------------------------------------------------

  function ByIndex(lastIdx: map<AppId, nat>): AppId -> Rank {
    a => Rank(if a in lastIdx then -(lastIdx[a] as int) else 1, 0.0)
  }

  lemma IndexRanking(h: seq<AppId>, lastIdx: map<AppId, nat>, s: seq<AppId>)
    requires lastIdx.Keys == Elems(h) && forall a :: a in lastIdx ==> lastIdx[a] == LastIndexOf(h, a)
    requires IsRanking(s, lastIdx.Keys, ByIndex(lastIdx))
    ensures s == ByLastMention(h)
  {
    assert forall i :: 0 <= i < |s| ==> s[i] in Elems(s);
    assert forall i :: 0 <= i < |s| ==> Newest(h)(s[i]) == ByIndex(lastIdx)(s[i]);
    LastMentionIsRanking(h);
    OneRanking(h, s, ByLastMention(h), Elems(h));
  }

  /** The `k` apps mentioned last, scored by place. */
  function Predicted(h: seq<AppId>, k: nat): seq<Prediction> {
    var apps := ByLastMention(h);
    var n := if k < |apps| then k else |apps|;
    seq(n, i requires 0 <= i < n => Prediction(apps[i], 1.0 - i as real / |apps| as real))
  }

  lemma MentionedLater(h: seq<AppId>, i: nat, j: nat)
    requires i < j < |ByLastMention(h)|
    ensures var apps := ByLastMention(h);
      LastIndexOf(h, apps[j]) < LastIndexOf(h, apps[i])
  {
    var apps := ByLastMention(h);
    LastMentionIsRanking(h);
    ByLastMentionFacts(h);
    assert AtMost(Newest(h)(apps[i]), Newest(h)(apps[j]));
    LastIndexRange(h, apps[i]);
    LastIndexRange(h, apps[j]);
  }

  /** However few apps are asked for, they are the ones mentioned last, each mentioned later than all
      that come after it and all that are left out, and scored by place. */
  lemma KeepsTheLatest(h: seq<AppId>, k: nat, i: nat, a: AppId)
    requires i < |Predicted(h, k)| && a in h && a !in AppIds(Predicted(h, k))[..i + 1]
    ensures var out := Predicted(h, k);
      && |out| == Min(k, |Elems(h)|) && out[i].appId in h && LastIndexOf(h, a) < LastIndexOf(h, out[i].appId)
      && out[i].score == 1.0 - i as real / |Elems(h)| as real
  {
    var out, apps := Predicted(h, k), ByLastMention(h);
    LastMentionIsRanking(h);
    DistinctCount(apps);
    assert a in Elems(h) && apps[i] in Elems(apps);
    assert AppIds(out)[..i + 1] == apps[..i + 1];
    var j := IndexFrom(apps, i + 1, a);
    MentionedLater(h, i, j);
  }

  lemma LastMentionLength(h: seq<AppId>)
    ensures |ByLastMention(h)| <= |h|
  {
  }

  /** Whatever such suffix of the log is replayed into a fresh predictor, the predictions are those of
      the whole log: all the apps among its last 256 opens, those opened last first. */
  lemma ReplayPredictsTheSame(log: seq<AppEvent>, limit: nat, k: nat)
    requires HoldsTheRecent(log, limit)
    ensures Predicted(History(Suffix(log, limit)), k) == Predicted(History(log), k)
    ensures var recent := Suffix(Opened(log), HISTORY_CAP);
      k >= |recent| ==>
        IsRanking(AppIds(Predicted(History(Suffix(log, limit)), k)), Elems(recent), Newest(recent))
  {
    var recent := Suffix(Opened(log), HISTORY_CAP);
    SuffixSuffices(log, limit);
    LastMentionIsRanking(recent);
    LastMentionLength(recent);
    if k >= |recent| {
      assert AppIds(Predicted(recent, k)) == ByLastMention(recent);
    }
  }

  lemma PlaceShare(i: nat, n: nat)
    requires i < n
    ensures 0.0 <= i as real / n as real < 1.0
  {
  }

  /** One minus the share of the list that comes before; never below zero. */
  function PlaceScore(i: nat, n: nat): (score: real)
    requires i < n
    ensures score == 1.0 - i as real / n as real && 0.0 < score <= 1.0
  {
    PlaceShare(i, n);
    var score := 1.0 - i as real / n as real;
    if score > 0.0 then score else 0.0
  }

  class MRUPredictor {
    var seen: set<AppId>
    var history: seq<AppId>

    /** Everything observed since construction or reset. */
    ghost var log: seq<AppEvent>

    ghost predicate Valid()
      reads this
    {
      history == History(log)
    }

    constructor ()
      ensures Valid() && log == []
    {
      seen, history, log := {}, [], [];
    }

    method Observe(ev: AppEvent)
      requires Valid()
      modifies this
      ensures Valid() && log == old(log) + [ev]
      ensures history == if Opens(ev) then Pushed(old(history), ev.appId) else old(history)
    {
      HistorySnoc(log, ev);
      log := log + [ev];
      if !ev.eventType.AppOpen? && !ev.eventType.AppForeground? {
        return;
      }
      seen := seen + {ev.appId};
      history := history + [ev.appId];
      if |history| > HISTORY_CAP {
        history := history[1..];
      }
    }

    method Predict(topK: nat) returns (out: seq<Prediction>)
      requires Valid()
      ensures out == Predicted(History(log), topK)
    {
      var lastIdx: map<AppId, nat> := map[];
      for i := 0 to |history|
        invariant lastIdx.Keys == Elems(history[..i])
        invariant forall a :: a in lastIdx ==> lastIdx[a] == LastIndexOf(history[..i], a)
      {
        assert Init(history[..i + 1]) == history[..i];
        assert history[..i + 1] == history[..i] + [history[i]];
        lastIdx := lastIdx[history[i] := i];
      }
      assert history[..|history|] == history;
      var ordered := Sort(lastIdx.Keys, ByIndex(lastIdx));
      IndexRanking(history, lastIdx, ordered);
      var n := if topK < |ordered| then topK else |ordered|;
      out := seq(n, i requires 0 <= i < n => Prediction(ordered[i], PlaceScore(i, |ordered|)));
    }

    method Reset()
      modifies this
      ensures Valid() && log == []
    {
      seen, history, log := {}, [], [];
    }
  }
}
