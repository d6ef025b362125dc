/** Sorting by rank and taking a prefix that covers a need: what both planners do. */
module Greedy {
  import opened Sequences

  /** Lexicographic: the tier first, then the score. */
  datatype Rank = Rank(tier: int, score: real)

  predicate AtMost(a: Rank, b: Rank) {
    a.tier < b.tier || (a.tier == b.tier && a.score <= b.score)
  }

  ghost predicate SortedBy<T>(s: seq<T>, rank: T -> Rank) {
    forall i, j :: 0 <= i < j < |s| ==> AtMost(rank(s[i]), rank(s[j]))
  }

  /** `s` lists `items` in rank order, equal ranks in any order. */
  ghost predicate IsRanking<T>(s: seq<T>, items: set<T>, rank: T -> Rank) {
    Distinct(s) && Elems(s) == items && SortedBy(s, rank)
  }

  lemma ConsRanked<T>(x: T, s: seq<T>, rank: T -> Rank)
    requires Distinct(s) && SortedBy(s, rank) && x !in s
    requires forall y :: y in s ==> AtMost(rank(x), rank(y))
    ensures Distinct([x] + s) && SortedBy([x] + s, rank)
  {
  }

  lemma {:induction false} LeastExists<T>(items: set<T>, rank: T -> Rank)
    requires items != {}
    ensures exists x :: x in items && forall y :: y in items ==> AtMost(rank(x), rank(y))
    decreases |items|
  {
    var x :| x in items;
    if items - {x} == {} {
      assert items == {x};
    } else {
      CardWithout(items, x);
      LeastExists(items - {x}, rank);
      var z :| z in items - {x} && forall y :: y in items - {x} ==> AtMost(rank(z), rank(y));
      var w := if AtMost(rank(x), rank(z)) then x else z;
      assert forall y :: y in items ==> y == x || y in items - {x};
      assert forall y :: y in items ==> AtMost(rank(w), rank(y));
    }
  }

  /** A sort that may put elements of equal rank in any order, as `std::sort` may. */
  method Sort<T(==)>(items: set<T>, rank: T -> Rank) returns (s: seq<T>)
    ensures IsRanking(s, items, rank)
  {
    s := [];
    var todo := items;
    while todo != {}
      invariant todo <= items && forall x :: x in s <==> x in items && x !in todo
      invariant Distinct(s) && SortedBy(s, rank)
      invariant forall i, y :: 0 <= i < |s| && y in todo ==> AtMost(rank(s[i]), rank(y))
      decreases |todo|
    {
      LeastExists(todo, rank);
      var x: T :| x in todo && forall y :: y in todo ==> AtMost(rank(x), rank(y));
      s, todo := s + [x], todo - {x};
    }
  }

  function Total<T>(s: seq<T>, weight: T -> nat): nat {
    if s == [] then 0 else weight(s[0]) + Total(s[1..], weight)
  }

  /** The shortest prefix that covers `need`, or all of `s`. */
  function Take<T>(s: seq<T>, weight: T -> nat, need: int): seq<T> {
    if s == [] || need <= 0 then []
    else [s[0]] + Take(s[1..], weight, need - weight(s[0]))
  }

  ghost function SumOf<T>(items: set<T>, weight: T -> nat): nat {
    if items == {} then 0
    else
      var x :| x in items;
      weight(x) + SumOf(items - {x}, weight)
  }

  lemma {:induction false} SumWithout<T>(items: set<T>, weight: T -> nat, x: T)
    requires x in items
    ensures SumOf(items, weight) == weight(x) + SumOf(items - {x}, weight)
    decreases |items|
  {
    var y :| y in items && SumOf(items, weight) == weight(y) + SumOf(items - {y}, weight);
    if y != x {
      CardWithout(items, y);
      SumWithout(items - {y}, weight, x);
      SumWithout(items - {x}, weight, y);
      assert items - {y} - {x} == items - {x} - {y};
    }
  }

  lemma {:induction false} SumUnion<T>(a: set<T>, b: set<T>, weight: T -> nat)
    requires a !! b
    ensures SumOf(a + b, weight) == SumOf(a, weight) + SumOf(b, weight)
    decreases |b|
  {
    if b == {} {
      assert a + b == a;
    } else {
      var x :| x in b;
      CardWithout(b, x);
      SumUnion(a, b - {x}, weight);
      SumWithout(b, weight, x);
      SumWithout(a + b, weight, x);
      assert a + b - {x} == a + (b - {x});
    }
  }

  lemma SumSubset<T>(a: set<T>, b: set<T>, weight: T -> nat)
    requires a <= b
    ensures SumOf(b, weight) == SumOf(a, weight) + SumOf(b - a, weight)
  {
    SumUnion(a, b - a, weight);
    assert a + (b - a) == b;
  }

  lemma {:induction false} TotalIsSum<T>(s: seq<T>, weight: T -> nat)
    requires Distinct(s)
    ensures Total(s, weight) == SumOf(Elems(s), weight)
  {
    if s != [] {
      TotalIsSum(s[1..], weight);
      SumWithout(Elems(s), weight, s[0]);
      assert Elems(s) - {s[0]} == Elems(s[1..]);
    }
  }

  /** `Take` cuts a prefix that covers the need, or everything; one element less never covers. */
  lemma {:induction false} TakeFacts<T>(s: seq<T>, weight: T -> nat, need: int)
    ensures var t := Take(s, weight, need);
      && t <= s
      && (Total(t, weight) >= need || t == s)
      && (t != [] ==> Total(Init(t), weight) < need)
  {
    if s != [] && need > 0 {
      var t, u := Take(s, weight, need), Take(s[1..], weight, need - weight(s[0]));
      TakeFacts(s[1..], weight, need - weight(s[0]));
      assert t[1..] == u;
      if u != [] {
        assert Init(t)[1..] == Init(u) && Init(t)[0] == s[0];
      } else {
        assert Init(t) == [];
      }
    }
  }

  lemma SumAfter<T>(all: set<T>, p: seq<T>, weight: T -> nat)
    requires Distinct(p) && Elems(p) <= all
    ensures SumOf(all, weight) == Total(p, weight) + SumOf(all - Elems(p), weight)
  {
    TotalIsSum(p, weight);
    SumSubset(Elems(p), all, weight);
  }

  lemma PrefixFacts<T>(s: seq<T>, n: nat)
    requires n <= |s| && Distinct(s)
    ensures Distinct(s[..n]) && Elems(s[..n]) <= Elems(s)
  {
  }

  lemma SumAfterPrefix<T>(all: set<T>, ordered: seq<T>, weight: T -> nat, n: nat)
    requires Distinct(ordered) && Elems(ordered) == all && n <= |ordered|
    ensures Distinct(ordered[..n]) && Elems(ordered[..n]) <= all
    ensures SumOf(all - Elems(ordered[..n]), weight) == SumOf(all, weight) - Total(ordered[..n], weight)
  {
    PrefixFacts(ordered, n);
    SumAfter(all, ordered[..n], weight);
  }

  lemma TakeLength<T>(s: seq<T>, weight: T -> nat, need: int) returns (n: nat)
    ensures n <= |s| && Take(s, weight, need) == s[..n]
    ensures n == |s| || Total(s[..n], weight) >= need
    ensures n > 0 ==> Total(s[..n - 1], weight) < need && Init(s[..n]) == s[..n - 1]
  {
    var t := Take(s, weight, need);
    TakeFacts(s, weight, need);
    n := |t|;
    assert n > 0 ==> Init(t) == s[..n - 1];
  }

  /** Taking what exceeds a budget away brings the sum within it; one element less does not. */
  lemma TakeMeets<T>(all: set<T>, ordered: seq<T>, weight: T -> nat, budget: nat) returns (p: seq<T>)
    requires Distinct(ordered) && Elems(ordered) == all
    ensures p == Take(ordered, weight, SumOf(all, weight) - budget)
    ensures Distinct(p) && Elems(p) <= all
    ensures SumOf(all - Elems(p), weight) <= budget
    ensures p != [] ==> SumOf(all - Elems(Init(p)), weight) > budget
  {
    var n := TakeLength(ordered, weight, SumOf(all, weight) - budget);
    p := ordered[..n];
    SumAfterPrefix(all, ordered, weight, n);
    if n == |ordered| {
      TotalIsSum(ordered, weight);
      assert p == ordered;
    }
    if n > 0 {
      SumAfterPrefix(all, ordered, weight, n - 1);
    }
  }

  /** What is taken ranks no higher than what stays. */
  lemma TakenRankFirst<T>(s: seq<T>, weight: T -> nat, rank: T -> Rank, need: int, x: T, y: T)
    requires Distinct(s) && SortedBy(s, rank)
    requires x in Take(s, weight, need) && y in s && y !in Take(s, weight, need)
    ensures AtMost(rank(x), rank(y))
  {
    var n := TakeLength(s, weight, need);
    var i :| 0 <= i < n && s[i] == x;
    var j := IndexFrom(s, n, y);
  }

  /** A choice that covers the need is not contained in one that does not. */
  lemma SomeChosenOutside<T>(t: seq<T>, weight: T -> nat, need: int, chosen: set<T>) returns (x: T)
    requires Distinct(t) && Total(t, weight) < need && SumOf(chosen, weight) >= need
    ensures x in chosen && x !in t
  {
    if chosen <= Elems(t) {
      TotalIsSum(t, weight);
      SumSubset(chosen, Elems(t), weight);
      assert false;
    }
    x :| x in chosen && x !in Elems(t);
  }

  lemma IndexFrom<T>(s: seq<T>, m: nat, x: T) returns (i: nat)
    requires m <= |s| && x in s && x !in s[..m]
    ensures m <= i < |s| && s[i] == x
  {
    i :| 0 <= i < |s| && s[i] == x;
    assert s == s[..m] + s[m..];
  }

  /** Bottleneck optimality: of a ranked list, any choice that covers the need contains an element
      ranked at least as high as the last one taken. */
  lemma Bottleneck<T>(s: seq<T>, weight: T -> nat, rank: T -> Rank, need: int, chosen: set<T>)
    returns (x: T)
    requires Distinct(s) && SortedBy(s, rank) && Take(s, weight, need) != []
    requires chosen <= Elems(s) && SumOf(chosen, weight) >= need
    ensures x in chosen && AtMost(rank(Last(Take(s, weight, need))), rank(x))
  {
    var n := TakeLength(s, weight, need);
    var m := n - 1;
    x := SomeChosenOutside(s[..m], weight, need, chosen);
    var i := IndexFrom(s, m, x);
  }
}
