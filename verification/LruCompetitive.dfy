/** LRU against the best that any schedule can do, on every access trace (Sleator and Tarjan). */
module LruCompetitive {
  import opened Sequences
  import opened CacheTypes
  import opened LruSpec
  import opened LruTraces

  /** A schedule is the set of keys held before the first access and after each one. */
  type Schedule = seq<set<Key>>

  /** It never holds more than `h` keys, and holds each key when its access has been served. */
  ghost predicate Serves(sched: Schedule, trace: seq<Key>, h: nat) {
    && |sched| == |trace| + 1
    && (forall i :: 0 <= i < |sched| ==> |sched[i]| <= h)
    && (forall i :: 0 <= i < |trace| ==> trace[i] in sched[i + 1])
  }

  /** How many keys the schedule brings in, one by one. */
  ghost function Loads(sched: Schedule): nat {
    if |sched| <= 1 then 0 else Loads(Init(sched)) + |Last(sched) - Last(Init(sched))|
  }

  /** How many accesses the schedule misses. */
  ghost function Misses(sched: Schedule, trace: seq<Key>): nat
    requires |sched| == |trace| + 1
  {
    if trace == [] then 0
    else Misses(Init(sched), Init(trace)) + if Last(trace) in sched[|trace| - 1] then 0 else 1
  }

  /** It loads a key only when that key is accessed. */
  ghost predicate OnDemand(sched: Schedule, trace: seq<Key>) {
    && |sched| == |trace| + 1
    && forall i :: 0 <= i < |trace| ==> sched[i + 1] <= sched[i] + {trace[i]}
  }

  /** LRU of capacity `k` after accessing each key of `trace`, filling in `v` on a miss. */
  function Accessed(k: nat, trace: seq<Key>, v: Bytes): Lru {
    ServeAll(Empty(k), seq(|trace|, i requires 0 <= i < |trace| => Access(trace[i], v)))
  }

  // ------------------------------------------------------------------
  // The potential: what LRU holds and the schedule does not, weighed by
  // how far it is from LRU's eviction end.
  // ------------------------------------------------------------------

  function Weight(l: seq<Key>, held: set<Key>, w: nat): nat
    requires |l| <= w
  {
    if l == [] then 0
    else (if l[0] in held then 0 else w) + Weight(l[1..], held, w - 1)
  }

  function Count(l: seq<Key>, held: set<Key>): nat {
    if l == [] then 0 else (if l[0] in held then 1 else 0) + Count(l[1..], held)
  }

  lemma {:induction false} CountSkips(l: seq<Key>, held: set<Key>, x: Key)
    requires x !in l
    ensures Count(l, held - {x}) == Count(l, held)
  {
    if l != [] {
      CountSkips(l[1..], held, x);
    }
  }

  lemma {:induction false} CountBound(l: seq<Key>, held: set<Key>)
    requires Distinct(l)
    ensures Count(l, held) <= |held|
  {
    if l != [] {
      CountBound(l[1..], held - {l[0]});
      CountSkips(l[1..], held, l[0]);
      CardWithout(held, l[0]);
    }
  }

  /** Keys that the schedule lets go of weigh at most `k` each. */
  lemma {:induction false} WeightOfLetGo(l: seq<Key>, held: set<Key>, held': set<Key>, w: nat, k: nat)
    requires |l| <= w <= k
    ensures Weight(l, held', w) <= Weight(l, held, w) + k * Count(l, held - held')
  {
    if l != [] {
      WeightOfLetGo(l[1..], held, held', w - 1, k);
      var n := Count(l[1..], held - held');
      assert k * (1 + n) == k + k * n;
    }
  }

  /** Moving everything one place towards the eviction end. */
  lemma {:induction false} WeightShift(l: seq<Key>, held: set<Key>, w: nat)
    requires |l| < w
    ensures Weight(l, held, w) == Weight(l, held, w - 1) + |l| - Count(l, held)
  {
    if l != [] {
      WeightShift(l[1..], held, w - 1);
    }
  }

  lemma {:induction false} WeightAfterEviction(l: seq<Key>, held: set<Key>)
    requires l != []
    ensures Weight(Init(l), held, |l| - 1) + |l| - Count(l, held) == Weight(l, held, |l|)
  {
    if |l| > 1 {
      WeightAfterEviction(l[1..], held);
      assert Init(l)[1..] == Init(l[1..]);
    }
  }

  lemma {:induction false} WeightAfterHit(l: seq<Key>, held: set<Key>, x: Key, w: nat)
    requires x in l && x in held && |l| <= w && Distinct(l)
    ensures |Without(l, x)| == |l| - 1
    ensures Weight(Without(l, x), held, w - 1) <= Weight(l, held, w)
  {
    WithoutFacts(l, x);
    if l[0] != x {
      WeightAfterHit(l[1..], held, x, w - 1);
      assert Without(l, x)[1..] == Without(l[1..], x);
    }
  }

  ghost function Potential(l: seq<Key>, held: set<Key>, k: nat, h: nat): nat
    requires |l| <= k && h <= k
  {
    Weight(l, held, k) + (k - h + 1) * (k - |l|) + k * |held|
  }

  lemma MulAdd(k: nat, a: nat, b: nat)
    ensures k * (a + b) == k * a + k * b
  {
  }

  lemma MulMono(k: nat, a: nat, b: nat)
    requires a <= b
    ensures k * a <= k * b
  {
  }

  lemma LetGoAndLoaded(held: set<Key>, held': set<Key>)
    ensures |held'| + |held - held'| == |held| + |held' - held|
  {
    assert held' + (held - held') == held + (held' - held);
    assert |held' + (held - held')| == |held'| + |held - held'|;
    assert |held + (held' - held)| == |held| + |held' - held|;
  }

  /** The schedule moves first: what it loads pays for what it lets go of. */
  lemma ScheduleMoves(l: seq<Key>, held: set<Key>, held': set<Key>, k: nat, h: nat)
    requires |l| <= k && h <= k && Distinct(l)
    ensures Potential(l, held', k, h) <= Potential(l, held, k, h) + k * |held' - held|
  {
    WeightOfLetGo(l, held, held', k, k);
    CountBound(l, held - held');
    MulMono(k, Count(l, held - held'), |held - held'|);
    LetGoAndLoaded(held, held');
    MulAdd(k, |held'|, |held - held'|);
    MulAdd(k, |held|, |held' - held|);
  }

  lemma {:induction false} CountBoundByLength(l: seq<Key>, held: set<Key>)
    ensures Count(l, held) <= |l|
  {
    if l != [] {
      CountBoundByLength(l[1..], held);
    }
  }

  /** Then LRU moves: each miss is paid for by the potential it releases. */
  lemma LruMoves(l: seq<Key>, held: set<Key>, k: nat, h: nat, x: Key)
    requires 1 <= h <= k && |l| <= k && |held| <= h && x in held && Distinct(l)
    ensures |Cut(ToFront(l, x), k)| <= k
    ensures Potential(Cut(ToFront(l, x), k), held, k, h) + (if x in l then 0 else k - h + 1)
            <= Potential(l, held, k, h)
  {
    if x in l {
      WeightAfterHit(l, held, x, k);
      assert ToFront(l, x)[1..] == Without(l, x);
    } else {
      WithoutAbsent(l, x);
      assert ([x] + l)[1..] == l;
      if |l| < k {
        WeightShift(l, held, k);
        CountBoundByLength(l, held);
        var g := k - h + 1;
        assert g * (k - |l|) == g * (k - |l| - 1) + g;
      } else {
        WeightAfterEviction(l, held);
        CountSkips(l, held, x);
        CountBound(l, held - {x});
        CardWithout(held, x);
        assert Cut([x] + l, k) == [x] + Init(l);
        assert ([x] + Init(l))[1..] == Init(l);
      }
    }
  }

  lemma Fold(g: nat, k: nat, misses: nat, missed: bool, loads: nat, n: nat, c: nat, p0: nat, p1: nat, p2: nat)
    requires g * misses + p0 <= k * loads + c
    requires p1 <= p0 + k * n && p2 + (if missed then g else 0) <= p1
    ensures g * (misses + if missed then 1 else 0) + p2 <= k * (loads + n) + c
  {
    MulAdd(k, loads, n);
    MulAdd(g, misses, 1);
  }

  lemma AccessedSnoc(k: nat, trace: seq<Key>, v: Bytes)
    requires trace != []
    ensures Accessed(k, trace, v) == Serve(Accessed(k, Init(trace), v), Access(Last(trace), v))
  {
    var rs := seq(|trace|, i requires 0 <= i < |trace| => Access(trace[i], v));
    var t := Init(trace);
    assert Init(rs) == seq(|t|, i requires 0 <= i < |t| => Access(t[i], v));
  }

  lemma ServeAmortized(s: Lru, x: Key, v: Bytes, now: set<Key>, next: set<Key>, k: nat, h: nat, loads: nat, c: nat)
    requires Shape(s) && s.cap == k && 1 <= h <= k && |next| <= h && x in next
    requires (k - h + 1) * s.misses + Potential(s.order, now, k, h) <= k * loads + c
    ensures var r := Serve(s, Access(x, v));
      && Shape(r) && r.cap == k
      && (k - h + 1) * r.misses + Potential(r.order, next, k, h) <= k * (loads + |next - now|) + c
  {
    var r := Serve(s, Access(x, v));
    ServeOrder(s, Access(x, v));
    ScheduleMoves(s.order, now, next, k, h);
    LruMoves(s.order, next, k, h, x);
    Fold(k - h + 1, k, s.misses, x !in s.order, loads, |next - now|, c,
         Potential(s.order, now, k, h), Potential(s.order, next, k, h), Potential(r.order, next, k, h));
  }

  /** At every point of the run, misses and potential together are covered by the loads so far. */
  lemma {:induction false} Amortized(trace: seq<Key>, v: Bytes, sched: Schedule, k: nat, h: nat)
    requires 1 <= h <= k && Serves(sched, trace, h)
    ensures var s := Accessed(k, trace, v);
      && Shape(s) && s.cap == k
      && (k - h + 1) * s.misses + Potential(s.order, Last(sched), k, h)
         <= k * Loads(sched) + Potential([], sched[0], k, h)
  {
    if trace != [] {
      var t, past := Init(trace), Init(sched);
      assert Serves(past, t, h) && past[0] == sched[0] && Last(trace) in Last(sched);
      Amortized(t, v, past, k, h);
      AccessedSnoc(k, trace, v);
      ServeAmortized(Accessed(k, t, v), Last(trace), v, Last(past), Last(sched), k, h,
                     Loads(past), Potential([], sched[0], k, h));
    }
  }

  /** LRU of capacity `k` against any schedule of capacity `h` that starts empty: its misses, but
      for `k` of them, are at most `k / (k - h + 1)` times the schedule's loads. */
  lemma Competitive(trace: seq<Key>, v: Bytes, sched: Schedule, k: nat, h: nat)
    requires 1 <= h <= k && Serves(sched, trace, h) && sched[0] == {}
    ensures (k - h + 1) * Accessed(k, trace, v).misses <= k * Loads(sched) + (k - h + 1) * k
  {
    Amortized(trace, v, sched, k, h);
  }

  lemma {:induction false} LoadsOnDemand(trace: seq<Key>, sched: Schedule, h: nat)
    requires Serves(sched, trace, h) && OnDemand(sched, trace)
    ensures Loads(sched) <= Misses(sched, trace)
  {
    if trace != [] {
      LoadsOnDemand(Init(trace), Init(sched), h);
      var now, next, x := Last(Init(sched)), Last(sched), Last(trace);
      assert next <= now + {x};
      if x in now {
        assert next - now == {};
      } else {
        assert next - now == {x};
      }
    }
  }

  /** With equal capacities and loading on demand: LRU's misses are at most `c` times the
      schedule's misses, plus `c`. */
  lemma CCompetitive(trace: seq<Key>, v: Bytes, sched: Schedule, c: nat)
    requires c >= 1 && Serves(sched, trace, c) && OnDemand(sched, trace) && sched[0] == {}
    ensures Accessed(c, trace, v).misses <= c * Misses(sched, trace) + c
  {
    Competitive(trace, v, sched, c, c);
    LoadsOnDemand(trace, sched, c);
    MulMono(c, Loads(sched), Misses(sched, trace));
  }

  // ------------------------------------------------------------------
  // A schedule that fetches ahead: why the bound in terms of its misses
  // needs loading on demand, but for capacity 1.
  // ------------------------------------------------------------------

  ghost predicate AllDifferWithin(trace: seq<Key>, c: nat) {
    forall i, j :: 0 <= i < j < |trace| && j - i <= c ==> trace[i] != trace[j]
  }

  /** `l` lists the latest accesses of `trace`, last one first. */
  ghost predicate ListsBack(l: seq<Key>, trace: seq<Key>) {
    |l| <= |trace| && forall j :: 0 <= j < |l| ==> l[j] == trace[|trace| - 1 - j]
  }

  lemma ListsOneMore(l: seq<Key>, trace: seq<Key>, c: nat)
    requires trace != [] && AllDifferWithin(trace, c) && |l| <= c && ListsBack(l, Init(trace))
    ensures Last(trace) !in l && ListsBack(Cut([Last(trace)] + l, c), trace)
  {
  }

  /** LRU of capacity `c` misses every access of a trace in which any `c + 1` in a row differ. */
  lemma {:induction false} MissesAll(trace: seq<Key>, v: Bytes, c: nat)
    requires AllDifferWithin(trace, c)
    ensures var s := Accessed(c, trace, v);
      Shape(s) && s.cap == c && s.misses == |trace| && ListsBack(s.order, trace)
  {
    if trace != [] {
      var s, x := Accessed(c, Init(trace), v), Last(trace);
      MissesAll(Init(trace), v, c);
      AccessedSnoc(c, trace, v);
      ListsOneMore(s.order, trace, c);
      WithoutAbsent(s.order, x);
      ServeOrder(s, Access(x, v));
    }
  }

  /** Each key is fetched while the one before it is served. */
  function FetchAhead(trace: seq<Key>): Schedule {
    seq(|trace| + 1, i requires 0 <= i <= |trace| =>
      if i == 0 then {} else if i == |trace| then {trace[i - 1]} else {trace[i - 1], trace[i]})
  }

  lemma FetchAheadServes(trace: seq<Key>, c: nat)
    requires c >= 2
    ensures Serves(FetchAhead(trace), trace, c) && FetchAhead(trace)[0] == {}
  {
    assert forall i :: 0 < i < |trace| ==> |{trace[i - 1], trace[i]}| <= 2;
  }

  lemma {:induction false} MissesOnlyTheFirst(sched: Schedule, trace: seq<Key>)
    requires |sched| == |trace| + 1
    requires forall i :: 1 <= i < |trace| ==> trace[i] in sched[i]
    ensures Misses(sched, trace) <= 1
  {
    if |trace| > 1 {
      MissesOnlyTheFirst(Init(sched), Init(trace));
    } else if |trace| == 1 {
      assert Misses(Init(sched), Init(trace)) == 0;
    }
  }

  /** The `i`-th of accesses that go round and round over `c + 1` keys. */
  function Turn(c: nat, i: nat): nat {
    if i <= c then i else Turn(c, i - c - 1)
  }

  function KeyAt(c: nat, i: nat): Key {
    seq(Turn(c, i), _ => 'k')
  }

  function RoundAndRound(c: nat, n: nat): seq<Key> {
    seq(n, i requires 0 <= i < n => KeyAt(c, i))
  }

  lemma {:induction false} TurnsDiffer(c: nat, i: nat, j: nat)
    requires i < j <= i + c
    ensures Turn(c, i) != Turn(c, j)
    decreases i
  {
    if i > c {
      TurnsDiffer(c, i - c - 1, j - c - 1);
    } else if j > c {
      assert Turn(c, j) == j - c - 1;
    }
  }

  /** LRU of capacity `c` misses every one of them. */
  lemma LruMissesEveryTurn(c: nat, n: nat, v: Bytes)
    ensures Accessed(c, RoundAndRound(c, n), v).misses == n
  {
    var trace := RoundAndRound(c, n);
    forall i, j | 0 <= i < j < n && j - i <= c ensures trace[i] != trace[j] {
      TurnsDiffer(c, i, j);
      assert |trace[i]| == Turn(c, i) && |trace[j]| == Turn(c, j);
    }
    MissesAll(trace, v, c);
  }

  lemma FetchAheadMissesOnce(trace: seq<Key>)
    ensures Misses(FetchAhead(trace), trace) <= 1
  {
    MissesOnlyTheFirst(FetchAhead(trace), trace);
  }

  lemma FetchingAheadBeatsLru(c: nat, v: Bytes)
    requires c >= 2
    ensures var trace, sched := RoundAndRound(c, 2 * c + 1), FetchAhead(RoundAndRound(c, 2 * c + 1));
      && Serves(sched, trace, c) && sched[0] == {}
      && Accessed(c, trace, v).misses > c * Misses(sched, trace) + c
  {
    var trace := RoundAndRound(c, 2 * c + 1);
    LruMissesEveryTurn(c, 2 * c + 1, v);
    FetchAheadServes(trace, c);
    FetchAheadMissesOnce(trace);
    MulMono(c, Misses(FetchAhead(trace), trace), 1);
  }

  /** A schedule of capacity 1 has no room to fetch ahead. */
  lemma OneKeyIsOnDemand(sched: Schedule, trace: seq<Key>)
    requires Serves(sched, trace, 1)
    ensures OnDemand(sched, trace)
  {
    forall i | 0 <= i < |trace| ensures sched[i + 1] <= sched[i] + {trace[i]} {
      CardWithout(sched[i + 1], trace[i]);
    }
  }

  ghost predicate BoundedByMisses(c: nat, v: Bytes) {
    forall trace: seq<Key>, sched: Schedule :: Serves(sched, trace, c) && sched[0] == {}
      ==> Accessed(c, trace, v).misses <= c * Misses(sched, trace) + c
  }

  /** Against all schedules, those that fetch ahead included, the bound in terms of their misses
      holds at capacity 1 and at no other. */
  lemma BoundedByMissesExactly(c: nat, v: Bytes)
    requires c >= 1
    ensures BoundedByMisses(c, v) <==> c == 1
  {
    if c == 1 {
      forall trace: seq<Key>, sched: Schedule | Serves(sched, trace, c) && sched[0] == {}
        ensures Accessed(c, trace, v).misses <= c * Misses(sched, trace) + c
      {
        OneKeyIsOnDemand(sched, trace);
        CCompetitive(trace, v, sched, c);
      }
    } else {
      FetchingAheadBeatsLru(c, v);
    }
  }

  // ------------------------------------------------------------------
  // The factor cannot be improved: on the same accesses a schedule that
  // loads on demand misses one in `c` only.
  // ------------------------------------------------------------------

  /** When the schedule last had to evict, before or at access `i`; 0 while it fills up. */
  function LastEviction(c: nat, i: nat): nat {
    if i == 0 then 0
    else if i == LastEviction(c, i - 1) + c then i
    else LastEviction(c, i - 1)
  }

  lemma {:induction false} LastEvictionRange(c: nat, i: nat)
    requires c >= 1
    ensures LastEviction(c, i) <= i < LastEviction(c, i) + c
    ensures LastEviction(c, i) == 0 || LastEviction(c, i) >= c
  {
    if i > 0 {
      LastEvictionRange(c, i - 1);
    }
  }

  /** The keys of `n` accesses from access `i` on. */
  function Window(c: nat, i: nat, n: nat): set<Key> {
    if n == 0 then {} else Window(c, i, n - 1) + {KeyAt(c, i + n - 1)}
  }

  /** What the schedule holds after access `i`. When full it has just let go of the key before the
      last eviction, which is the one needed again last. */
  function HeldAfter(c: nat, i: nat): set<Key> {
    var t := LastEviction(c, i);
    Window(c, t, if t == 0 then i + 1 else c)
  }

  function OneInC(c: nat, n: nat): Schedule {
    seq(n + 1, i requires 0 <= i <= n => if i == 0 then {} else HeldAfter(c, i - 1))
  }

  lemma {:induction false} WindowHolds(c: nat, i: nat, n: nat, d: nat)
    requires d < n
    ensures KeyAt(c, i + d) in Window(c, i, n)
  {
    if d < n - 1 {
      WindowHolds(c, i, n - 1, d);
    }
  }

  lemma {:induction false} WindowSize(c: nat, i: nat, n: nat)
    ensures |Window(c, i, n)| <= n
  {
    if n > 0 {
      WindowSize(c, i, n - 1);
    }
  }

  /** The `c` keys from an eviction on are those held before it and the one that is loaded. */
  lemma {:induction false} WindowMoves(c: nat, t: nat, n: nat)
    requires 1 <= n <= c <= t
    ensures Window(c, t, n) <= Window(c, t - c, c) + {KeyAt(c, t)}
  {
    if n > 1 {
      WindowMoves(c, t, n - 1);
      var j := t + n - 1;
      assert KeyAt(c, j) == KeyAt(c, t - c + (n - 2));
      WindowHolds(c, t - c, c, n - 2);
    } else {
      assert Window(c, t, 1) == {} + {KeyAt(c, t)};
    }
  }

  lemma HeldFacts(c: nat, i: nat)
    requires c >= 1
    ensures |HeldAfter(c, i)| <= c && KeyAt(c, i) in HeldAfter(c, i)
    ensures HeldAfter(c, i) <= (if i == 0 then {} else HeldAfter(c, i - 1)) + {KeyAt(c, i)}
  {
    var t := LastEviction(c, i);
    var n := if t == 0 then i + 1 else c;
    LastEvictionRange(c, i);
    WindowSize(c, t, n);
    WindowHolds(c, t, n, i - t);
    if i >= 1 && t == i {
      LastEvictionRange(c, i - 1);
      WindowMoves(c, t, c);
    }
  }

  lemma OneInCServes(c: nat, n: nat)
    requires c >= 1
    ensures Serves(OneInC(c, n), RoundAndRound(c, n), c)
    ensures OnDemand(OneInC(c, n), RoundAndRound(c, n)) && OneInC(c, n)[0] == {}
  {
    var sched, trace := OneInC(c, n), RoundAndRound(c, n);
    forall i | 1 <= i <= n ensures |sched[i]| <= c {
      HeldFacts(c, i - 1);
    }
    forall i | 0 <= i < n ensures trace[i] in sched[i + 1] && sched[i + 1] <= sched[i] + {trace[i]} {
      HeldFacts(c, i);
    }
  }

  /** An access that comes neither while the schedule fills up nor when it evicts is a hit. */
  lemma OneInCHits(c: nat, i: nat)
    requires 1 <= c <= i && LastEviction(c, i) != i
    ensures KeyAt(c, i) in HeldAfter(c, i - 1)
  {
    var t := LastEviction(c, i - 1);
    LastEvictionRange(c, i - 1);
    assert t < i < t + c && t != 0;
    assert HeldAfter(c, i - 1) == Window(c, t, c);
    WindowHolds(c, t, c, i - t);
  }

  lemma OneMoreTurn(c: nat, i: nat)
    ensures Misses(OneInC(c, i + 1), RoundAndRound(c, i + 1))
      == Misses(OneInC(c, i), RoundAndRound(c, i)) + if KeyAt(c, i) in OneInC(c, i)[i] then 0 else 1
  {
    assert Init(OneInC(c, i + 1)) == OneInC(c, i) && Init(RoundAndRound(c, i + 1)) == RoundAndRound(c, i);
  }

  lemma {:induction false} OneInCMisses(c: nat, i: nat)
    requires c >= 1
    ensures c * Misses(OneInC(c, i + 1), RoundAndRound(c, i + 1)) <= c * Min(i + 1, c) + LastEviction(c, i)
  {
    var m := Misses(OneInC(c, i), RoundAndRound(c, i));
    OneMoreTurn(c, i);
    MulAdd(c, m, 1);
    if i == 0 {
      assert m == 0;
    } else {
      OneInCMisses(c, i - 1);
      LastEvictionRange(c, i - 1);
      if i < c {
        MulAdd(c, i, 1);
      } else if LastEviction(c, i) != i {
        OneInCHits(c, i);
      }
    }
  }

  lemma OneInCTotal(c: nat, n: nat)
    requires c >= 1
    ensures c * Misses(OneInC(c, n), RoundAndRound(c, n)) <= n + c * c
  {
    if n == 0 {
      assert Misses(OneInC(c, n), RoundAndRound(c, n)) == 0;
    } else {
      OneInCMisses(c, n - 1);
      LastEvictionRange(c, n - 1);
      MulMono(c, Min(n, c), c);
    }
  }

  /** For every capacity and every length there is a trace on which LRU misses every access and a
      schedule of the same capacity, loading on demand, all but a constant less than one in `c`. So
      no factor below `c` would do in `CCompetitive`. */
  lemma FactorIsTight(c: nat, n: nat, v: Bytes)
    requires c >= 1
    ensures var trace, sched := RoundAndRound(c, n), OneInC(c, n);
      && Serves(sched, trace, c) && OnDemand(sched, trace) && sched[0] == {}
      && Accessed(c, trace, v).misses == |trace| == n
      && c * Misses(sched, trace) <= n + c * c
  {
    OneInCServes(c, n);
    LruMissesEveryTurn(c, n, v);
    OneInCTotal(c, n);
  }
}
