/** Sequences that act as ordered lists of distinct elements: the shape every recency list has. */
module Sequences {

  ghost predicate Distinct<T>(s: seq<T>) {
    forall i, j :: 0 <= i < j < |s| ==> s[i] != s[j]
  }

  function Elems<T>(s: seq<T>): set<T> {
    set x | x in s
  }

  function Last<T>(s: seq<T>): T
    requires s != []
  {
    s[|s| - 1]
  }

  function Init<T>(s: seq<T>): seq<T>
    requires s != []
  {
    s[..|s| - 1]
  }

  /** `s` with the first occurrence of `x` taken out. */
  function Without<T(==)>(s: seq<T>, x: T): seq<T> {
    if s == [] then []
    else if s[0] == x then s[1..]
    else [s[0]] + Without(s[1..], x)
  }

  /** `x` moved, or added, to the front. */
  function ToFront<T(==)>(s: seq<T>, x: T): seq<T> {
    [x] + Without(s, x)
  }

  lemma {:induction false} WithoutAbsent<T>(s: seq<T>, x: T)
    requires x !in s
    ensures Without(s, x) == s
  {
    if s != [] {
      WithoutAbsent(s[1..], x);
    }
  }

  /** Taking `x` out of a list of distinct elements is cutting it at the index of `x`. */
  lemma {:induction false} WithoutAt<T>(s: seq<T>, i: nat)
    requires i < |s| && Distinct(s)
    ensures Without(s, s[i]) == s[..i] + s[i + 1..]
  {
    if i > 0 {
      WithoutAt(s[1..], i - 1);
      assert s[1..][..i - 1] == s[1..i] && s[1..][i..] == s[i + 1..];
      assert s[0] != s[i];
    }
  }

  /** Where each element that stays came from. */
  lemma WithoutIndex<T>(s: seq<T>, x: T) returns (i: nat)
    requires x in s && Distinct(s)
    ensures i < |s| && s[i] == x && |Without(s, x)| == |s| - 1
    ensures forall a :: 0 <= a < |s| - 1 ==> Without(s, x)[a] == s[if a < i then a else a + 1]
  {
    i :| 0 <= i < |s| && s[i] == x;
    WithoutAt(s, i);
  }

  lemma {:induction false} WithoutFacts<T>(s: seq<T>, x: T)
    requires Distinct(s)
    ensures Distinct(Without(s, x)) && x !in Without(s, x)
    ensures forall y :: y in Without(s, x) <==> y in s && y != x
    ensures |Without(s, x)| == if x in s then |s| - 1 else |s|
  {
    if x in s {
      var i :| 0 <= i < |s| && s[i] == x;
      WithoutAt(s, i);
      var r := s[..i] + s[i + 1..];
      forall y | y in s && y != x ensures y in r {
        var j :| 0 <= j < |s| && s[j] == y;
        assert y == if j < i then r[j] else r[j - 1];
      }
    } else {
      WithoutAbsent(s, x);
    }
  }

  lemma ToFrontFacts<T>(s: seq<T>, x: T)
    requires Distinct(s)
    ensures Distinct(ToFront(s, x))
    ensures forall y :: y in ToFront(s, x) <==> y in s || y == x
    ensures |ToFront(s, x)| == if x in s then |s| else |s| + 1
  {
    WithoutFacts(s, x);
  }

  /** Cutting off the last element of a list of distinct elements removes just that element. */
  lemma InitFacts<T>(s: seq<T>)
    requires s != [] && Distinct(s)
    ensures Distinct(Init(s)) && Last(s) !in Init(s)
    ensures forall y :: y in Init(s) <==> y in s && y != Last(s)
  {
    assert s == Init(s) + [Last(s)];
  }

  /** Cutting a list of distinct elements: what stays is what is not cut off. */
  lemma CutFacts<T>(s: seq<T>, n: nat)
    requires n <= |s| && Distinct(s)
    ensures Distinct(s[..n])
    ensures forall x :: x in s[..n] <==> x in s && x !in s[n..]
  {
    assert s == s[..n] + s[n..];
    assert forall j :: 0 <= j < |s| - n ==> s[n..][j] == s[n + j];
  }

  lemma PrefixSnoc<T>(p: seq<T>, s: seq<T>)
    requires p <= s && |p| < |s|
    ensures s[..|p| + 1] == p + [s[|p|]]
  {
  }

  /** Of two prefixes of a list of distinct elements, one holds the elements of the other exactly if
      it is as long. */
  lemma PrefixHolds<T>(t: seq<T>, l: seq<T>, r: seq<T>)
    requires Distinct(t) && l <= t && r <= t
    ensures (forall x :: x in l ==> x in r) <==> |l| <= |r|
  {
    if |l| > |r| {
      assert t[|l| - 1] in l && t[|l| - 1] !in r;
    }
  }

  lemma {:induction false} DistinctCount<T>(s: seq<T>)
    requires Distinct(s)
    ensures |Elems(s)| == |s|
  {
    if s == [] {
      assert Elems(s) == {};
    } else {
      DistinctCount(s[1..]);
      assert Elems(s) == Elems(s[1..]) + {s[0]};
    }
  }

  lemma CardMono<T>(a: set<T>, b: set<T>)
    requires a <= b
    ensures |a| <= |b|
  {
    assert b == a + (b - a);
  }

  lemma CardWithout<T>(b: set<T>, x: T)
    ensures |b - {x}| == if x in b then |b| - 1 else |b|
  {
    if x in b {
      assert b == (b - {x}) + {x};
    } else {
      assert b - {x} == b;
    }
  }

  // ------------------------------------------------------------------
  // Moving to the front, over and over.
  // ------------------------------------------------------------------

  function AllToFront<T(==)>(s: seq<T>, xs: seq<T>): seq<T>
    decreases |xs|
  {
    if xs == [] then s else AllToFront(ToFront(s, xs[0]), xs[1..])
  }

  /** The distinct elements of `xs`, the one mentioned last first. */
  function ByLastMention<T(==)>(xs: seq<T>): seq<T> {
    if xs == [] then []
    else if xs[0] in xs[1..] then ByLastMention(xs[1..])
    else ByLastMention(xs[1..]) + [xs[0]]
  }

  function Excluding<T(==)>(s: seq<T>, xs: seq<T>): seq<T> {
    if s == [] then []
    else if s[0] in xs then Excluding(s[1..], xs)
    else [s[0]] + Excluding(s[1..], xs)
  }

  lemma {:induction false} ByLastMentionFacts<T>(xs: seq<T>)
    ensures Distinct(ByLastMention(xs))
    ensures forall x :: x in ByLastMention(xs) <==> x in xs
  {
    if xs != [] {
      ByLastMentionFacts(xs[1..]);
      assert forall x :: x in xs <==> x == xs[0] || x in xs[1..];
    }
  }

  lemma {:induction false} ExcludingNone<T>(s: seq<T>)
    ensures Excluding(s, []) == s
  {
    if s != [] {
      ExcludingNone(s[1..]);
    }
  }

  lemma {:induction false} ExcludingAbsent<T>(s: seq<T>, x: T, xs: seq<T>)
    requires x !in s
    ensures Excluding(s, xs) == Excluding(s, [x] + xs)
  {
    if s != [] {
      ExcludingAbsent(s[1..], x, xs);
    }
  }

  lemma {:induction false} ExcludingOneMore<T>(s: seq<T>, x: T, xs: seq<T>)
    requires Distinct(s)
    ensures Excluding(Without(s, x), xs) == Excluding(s, [x] + xs)
  {
    if s != [] {
      if s[0] == x {
        ExcludingAbsent(s[1..], x, xs);
      } else {
        ExcludingOneMore(s[1..], x, xs);
      }
    }
  }

  /** Moving the elements of `xs` to the front one after the other leaves them there in the reverse
      order of their last mention, and the others behind them in the order they had. */
  lemma {:induction false} AllToFrontFacts<T>(s: seq<T>, xs: seq<T>)
    requires Distinct(s)
    ensures AllToFront(s, xs) == ByLastMention(xs) + Excluding(s, xs)
    decreases |xs|
  {
    if xs == [] {
      ExcludingNone(s);
    } else {
      var x, rest := xs[0], xs[1..];
      ToFrontFacts(s, x);
      AllToFrontFacts(ToFront(s, x), rest);
      ExcludingOneMore(s, x, rest);
      assert ToFront(s, x)[1..] == Without(s, x);
      assert [x] + rest == xs;
      assert Excluding(ToFront(s, x), rest) == (if x in rest then [] else [x]) + Excluding(s, xs);
    }
  }

  lemma {:induction false} AllToFrontSnoc<T>(s: seq<T>, xs: seq<T>, x: T)
    ensures AllToFront(s, xs + [x]) == ToFront(AllToFront(s, xs), x)
    decreases |xs|
  {
    if xs != [] {
      AllToFrontSnoc(ToFront(s, xs[0]), xs[1..], x);
      assert (xs + [x])[1..] == xs[1..] + [x];
    }
  }

  lemma LastMentionSnoc<T>(xs: seq<T>, x: T)
    ensures ByLastMention(xs + [x]) == ToFront(ByLastMention(xs), x)
  {
    var none: seq<T> := [];
    AllToFrontFacts(none, xs);
    AllToFrontFacts(none, xs + [x]);
    AllToFrontSnoc(none, xs, x);
    assert ByLastMention(xs) + [] == ByLastMention(xs) && ByLastMention(xs + [x]) + [] == ByLastMention(xs + [x]);
  }

  /** A prefix stays a prefix when the same element leaves both lists. */
  lemma PrefixWithout<T>(s: seq<T>, t: seq<T>, x: T)
    requires s <= t && Distinct(t)
    ensures Without(s, x) <= Without(t, x)
  {
    if x in s {
      var i := WithoutIndex(s, x);
      var j := WithoutIndex(t, x);
    } else if x in t {
      WithoutAbsent(s, x);
      var j := WithoutIndex(t, x);
    } else {
      WithoutAbsent(s, x);
      WithoutAbsent(t, x);
    }
  }
}
