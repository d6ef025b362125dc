/** Counters, and sums over their entries. */
module Tallies {
  import opened Sequences
  import opened Greedy

  type Counter<K> = map<K, nat>

  function At<K>(m: Counter<K>, k: K): nat {
    if k in m then m[k] else 0
  }

  function Increment<K>(m: Counter<K>, k: K): Counter<K> {
    m[k := At(m, k) + 1]
  }

  function AtOf<K>(m: Counter<K>): K -> nat {
    k => At(m, k)
  }

  /** The sum of all counts. */
  ghost function Tally<K>(m: Counter<K>): nat {
    SumOf(m.Keys, AtOf(m))
  }

  lemma {:induction false} SumSame<T>(items: set<T>, f: T -> nat, g: T -> nat)
    requires forall x :: x in items ==> f(x) == g(x)
    ensures SumOf(items, f) == SumOf(items, g)
    decreases |items|
  {
    if items != {} {
      var x :| x in items;
      CardWithout(items, x);
      SumWithout(items, f, x);
      SumWithout(items, g, x);
      SumSame(items - {x}, f, g);
    }
  }

  lemma TallyIncrement<K>(m: Counter<K>, k: K)
    ensures Tally(Increment(m, k)) == Tally(m) + 1
  {
    var r := Increment(m, k);
    SumWithout(r.Keys, AtOf(r), k);
    SumSame(r.Keys - {k}, AtOf(r), AtOf(m));
    if k in m {
      SumWithout(m.Keys, AtOf(m), k);
      assert r.Keys == m.Keys;
    } else {
      assert r.Keys - {k} == m.Keys;
    }
  }

  /** One count is part of the tally. */
  lemma CountInTally<K>(m: Counter<K>, a: K)
    requires a in m
    ensures m[a] <= Tally(m) && |m| >= 1
  {
    SumWithout(m.Keys, AtOf(m), a);
    CardWithout(m.Keys, a);
  }

  // ------------------------------------------------------------------
  // Sums of scores.
  // ------------------------------------------------------------------

  ghost function RealSum<T>(items: set<T>, f: T -> real): real {
    if items == {} then 0.0
    else
      var x :| x in items;
      f(x) + RealSum(items - {x}, f)
  }

  lemma {:induction false} RealSumWithout<T>(items: set<T>, f: T -> real, x: T)
    requires x in items
    ensures RealSum(items, f) == f(x) + RealSum(items - {x}, f)
    decreases |items|
  {
    var y :| y in items && RealSum(items, f) == f(y) + RealSum(items - {y}, f);
    if y != x {
      CardWithout(items, y);
      RealSumWithout(items - {y}, f, x);
      RealSumWithout(items - {x}, f, y);
      assert items - {y} - {x} == items - {x} - {y};
    }
  }

  /** Sums respect pointwise addition. */
  lemma {:induction false} RealSumAdd<T>(items: set<T>, f: T -> real, g: T -> real, h: T -> real)
    requires forall x :: x in items ==> h(x) == f(x) + g(x)
    ensures RealSum(items, h) == RealSum(items, f) + RealSum(items, g)
    decreases |items|
  {
    if items != {} {
      var x :| x in items;
      CardWithout(items, x);
      RealSumWithout(items, f, x);
      RealSumWithout(items, g, x);
      RealSumWithout(items, h, x);
      RealSumAdd(items - {x}, f, g, h);
    }
  }

  /** Sums respect the pointwise order, and terms that are not negative only add. */
  lemma {:induction false} RealSumMono<T>(a: set<T>, b: set<T>, f: T -> real, g: T -> real)
    requires a <= b && forall x :: x in a ==> f(x) <= g(x)
    requires forall x :: x in b && x !in a ==> g(x) >= 0.0
    ensures RealSum(a, f) <= RealSum(b, g)
    decreases |b|
  {
    if b != {} {
      var x :| x in b;
      CardWithout(b, x);
      RealSumWithout(b, g, x);
      if x in a {
        RealSumWithout(a, f, x);
        RealSumMono(a - {x}, b - {x}, f, g);
      } else {
        assert a <= b - {x};
        RealSumMono(a, b - {x}, f, g);
      }
    }
  }

  lemma {:induction false} RealSumNegated<T>(items: set<T>, f: T -> real, neg: T -> real)
    requires forall x :: neg(x) == -f(x)
    ensures RealSum(items, neg) == -RealSum(items, f)
    decreases |items|
  {
    if items != {} {
      var x :| x in items;
      CardWithout(items, x);
      RealSumWithout(items, f, x);
      RealSumWithout(items, neg, x);
      RealSumNegated(items - {x}, f, neg);
    }
  }

  /** A term outside `a` that is zero does not matter. */
  lemma {:induction false} RealSumZeros<T>(a: set<T>, b: set<T>, f: T -> real)
    requires a <= b && forall x :: x in b && x !in a ==> f(x) == 0.0
    ensures RealSum(a, f) == RealSum(b, f)
  {
    RealSumMono(a, b, f, f);
    var neg := x => -f(x);
    RealSumMono(a, b, neg, neg);
    RealSumNegated(a, f, neg);
    RealSumNegated(b, f, neg);
  }

  /** What a count contributes to a sum of scores. */
  function RealAt<K>(m: Counter<K>): K -> real {
    k => At(m, k) as real
  }

  lemma {:induction false} RealTally<K>(items: set<K>, m: Counter<K>)
    ensures RealSum(items, RealAt(m)) == SumOf(items, AtOf(m)) as real
    decreases |items|
  {
    if items != {} {
      var k :| k in items;
      CardWithout(items, k);
      RealSumWithout(items, RealAt(m), k);
      SumWithout(items, AtOf(m), k);
      RealTally(items - {k}, m);
    }
  }

  lemma {:induction false} RealCard<K>(items: set<K>, one: K -> real)
    requires forall k :: one(k) == 1.0
    ensures RealSum(items, one) == |items| as real
    decreases |items|
  {
    if items != {} {
      var k :| k in items;
      CardWithout(items, k);
      RealSumWithout(items, one, k);
      RealCard(items - {k}, one);
    }
  }

  predicate AdditiveAt(h: real -> real, a: real, b: real) {
    h(a + b) == h(a) + h(b)
  }

  ghost predicate Additive(h: real -> real) {
    h(0.0) == 0.0 && forall a, b :: AdditiveAt(h, a, b)
  }

  function After<T>(h: real -> real, f: T -> real): T -> real {
    x => h(f(x))
  }

  /** Sums respect additive functions. */
  lemma {:induction false} RealSumAdditive<T>(items: set<T>, h: real -> real, f: T -> real)
    requires Additive(h)
    ensures RealSum(items, After(h, f)) == h(RealSum(items, f))
    decreases |items|
  {
    if items != {} {
      var x :| x in items;
      CardWithout(items, x);
      RealSumWithout(items, f, x);
      RealSumWithout(items, After(h, f), x);
      RealSumAdditive(items - {x}, h, f);
      assert AdditiveAt(h, f(x), RealSum(items - {x}, f));
    }
  }

  function Times(w: real): real -> real {
    a => w * a
  }

  lemma MulDistributes(w: real, a: real, b: real)
    ensures w * (a + b) == w * a + w * b
  {
  }

  lemma TimesIsAdditive(w: real)
    ensures Additive(Times(w))
  {
    forall a, b ensures AdditiveAt(Times(w), a, b) {
      MulDistributes(w, a, b);
    }
  }

  /** Sums respect a common factor. */
  lemma RealSumScale<T>(items: set<T>, w: real, f: T -> real)
    ensures RealSum(items, After(Times(w), f)) == w * RealSum(items, f)
  {
    TimesIsAdditive(w);
    RealSumAdditive(items, Times(w), f);
  }
}
