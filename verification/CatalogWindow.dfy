// scripts/build_demo_deployment.py: which products of a store make its catalogue window.
// The window is a greedy maximisation of a saturating coverage objective, run lazily over a
// heap of stale keys. Weights and gains are reals; `1/sqrt(1+k)` is any positive
// non-increasing function of `k` (SqrtDamping shows the square root is one).
module CatalogWindow {
  import opened Prelude
  import opened RealMath

  datatype Term = Term(text: string)

  datatype Ref = Ref(id: string)

  datatype Store = Store(terms: map<Ref, seq<Term>>, weights: map<Term, real>, damp: nat -> real)

  ghost predicate Damping(d: nat -> real) {
    && (forall k: nat :: 0.0 < d(k))
    && (forall j: nat, k: nat :: j <= k ==> d(k) <= d(j))
  }

  ghost predicate WellFormed(st: Store) {
    && Damping(st.damp)
    && (forall t | t in st.weights :: st.weights[t] > 0.0)
    && (forall r | r in st.terms :: Distinct(st.terms[r]))
  }

  // ---------------------------------------------------------------------------------
  // Gains, as the source computes them

  /** `covered.get(term, 0)` */
  function Times(c: map<Term, nat>, t: Term): nat {
    if t in c then c[t] else 0
  }

  /** One more covering of `t`, after `n` of them: nothing when the store's weights do not carry `t`. */
  function Price(st: Store, t: Term, n: nat): real {
    if t in st.weights then st.weights[t] * st.damp(n) else 0.0
  }

  function Gain(st: Store, ts: seq<Term>, c: map<Term, nat>): real {
    if ts == [] then 0.0 else Price(st, ts[0], Times(c, ts[0])) + Gain(st, ts[1..], c)
  }

  /** The loop that covers an accepted product's terms. */
  function Cover(st: Store, ts: seq<Term>, c: map<Term, nat>): map<Term, nat> {
    if ts == [] then c
    else Cover(st, ts[1..], if ts[0] in st.weights then c[ts[0] := Times(c, ts[0]) + 1] else c)
  }

  // ---------------------------------------------------------------------------------
  // The objective: a function of the SET of products, with no order in it

  ghost function Count(st: Store, picked: set<Ref>, t: Term): nat {
    |set r | r in picked && r in st.terms && t in st.terms[r]|
  }

  ghost function Coverage(st: Store, picked: set<Ref>): map<Term, nat> {
    map t | t in st.weights :: Count(st, picked, t)
  }

  /** What `n` coverings of one unit-weight term are worth. */
  ghost function Damped(d: nat -> real, n: nat): real {
    if n == 0 then 0.0 else Damped(d, n - 1) + d(n - 1)
  }

  /** What term `t` contributes once covered `n` times. */
  ghost function Worth(st: Store, t: Term, n: nat): real {
    if t in st.weights then st.weights[t] * Damped(st.damp, n) else 0.0
  }

  ghost function WorthAt(st: Store, c: map<Term, nat>): Term -> real {
    t => Worth(st, t, Times(c, t))
  }

  ghost function Value(st: Store, c: map<Term, nat>): real {
    Sum(st.weights.Keys, WorthAt(st, c))
  }

  ghost function Objective(st: Store, picked: set<Ref>): real {
    Value(st, Coverage(st, picked))
  }

  lemma ValueAgrees(st: Store, c: map<Term, nat>, c': map<Term, nat>)
    requires forall t | t in st.weights :: Times(c, t) == Times(c', t)
    ensures Value(st, c) == Value(st, c')
  {
    SumAgrees(st.weights.Keys, WorthAt(st, c), WorthAt(st, c'));
  }

  lemma WorthStep(st: Store, t: Term, n: nat)
    requires t in st.weights
    ensures Worth(st, t, n + 1) == Worth(st, t, n) + Price(st, t, n)
  {
    assert Damped(st.damp, n + 1) == Damped(st.damp, n) + st.damp(n);
  }

  lemma {:induction false} GainAgrees(st: Store, ts: seq<Term>, c: map<Term, nat>, c': map<Term, nat>)
    requires forall t | t in ts && t in st.weights :: Times(c, t) == Times(c', t)
    ensures Gain(st, ts, c) == Gain(st, ts, c')
  {
    if ts != [] {
      GainAgrees(st, ts[1..], c, c');
    }
  }

  /** A product's gain is exactly what covering its terms adds: this is where distinct terms matter. */
  lemma {:induction false} GainIsMarginal(st: Store, ts: seq<Term>, c: map<Term, nat>)
    requires Distinct(ts)
    ensures Value(st, Cover(st, ts, c)) == Value(st, c) + Gain(st, ts, c)
  {
    if ts != [] {
      var t := ts[0];
      if t in st.weights {
        var c1 := c[t := Times(c, t) + 1];
        OneTerm(st, c, t);
        hide Price, Value;
        GainAgrees(st, ts[1..], c, c1);
        GainIsMarginal(st, ts[1..], c1);
      } else {
        hide Value;
        GainIsMarginal(st, ts[1..], c);
      }
    }
  }

  lemma OneTerm(st: Store, c: map<Term, nat>, t: Term)
    requires t in st.weights
    ensures Value(st, c[t := Times(c, t) + 1]) == Value(st, c) + Price(st, t, Times(c, t))
  {
    var c1 := c[t := Times(c, t) + 1];
    WorthStep(st, t, Times(c, t));
    hide Price, Worth;
    SumUpdate(st.weights.Keys, WorthAt(st, c), WorthAt(st, c1), t);
  }

  /** A repeated term breaks it: the second copy is priced as if the first had not been covered. */
  lemma RepeatedTermBreaksMarginal(st: Store, x: Term)
    requires st.weights == map[x := 1.0] && st.damp(0) != st.damp(1)
    ensures Value(st, Cover(st, [x, x], map[])) != Value(st, map[]) + Gain(st, [x, x], map[])
  {
    var ts := [x, x];
    assert ts[1..] == [x] && [x][1..] == [];
    GainIsMarginal(st, [x], map[]);
    GainIsMarginal(st, [x], map[x := 1]);
    assert Cover(st, [x], map[]) == map[x := 1];
    assert Cover(st, ts, map[]) == Cover(st, [x], map[x := 1]);
    assert Gain(st, [x], map[]) == st.damp(0) && Gain(st, [x], map[x := 1]) == st.damp(1);
    assert Gain(st, ts, map[]) == st.damp(0) + st.damp(0);
  }

  lemma {:induction false} CoverTimes(st: Store, ts: seq<Term>, c: map<Term, nat>, t: Term)
    requires Distinct(ts)
    ensures Times(Cover(st, ts, c), t) == Times(c, t) + (if t in ts && t in st.weights then 1 else 0)
  {
    if ts != [] {
      CoverTimes(st, ts[1..], if ts[0] in st.weights then c[ts[0] := Times(c, ts[0]) + 1] else c, t);
      assert t in ts <==> t == ts[0] || t in ts[1..];
    }
  }

  lemma CountAdd(st: Store, picked: set<Ref>, r: Ref, t: Term)
    requires r in st.terms && r !in picked
    ensures Count(st, picked + {r}, t) == Count(st, picked, t) + (if t in st.terms[r] then 1 else 0)
  {
    var before := set q | q in picked && q in st.terms && t in st.terms[q];
    var after := set q | q in picked + {r} && q in st.terms && t in st.terms[q];
    assert after == if t in st.terms[r] then before + {r} else before;
  }

  ghost function GainAfter(st: Store, picked: set<Ref>, r: Ref): real
    requires r in st.terms
  {
    Gain(st, st.terms[r], Coverage(st, picked))
  }

  lemma ObjectiveAdd(st: Store, picked: set<Ref>, r: Ref)
    requires WellFormed(st) && r in st.terms && r !in picked
    ensures Objective(st, picked + {r}) == Objective(st, picked) + GainAfter(st, picked, r)
  {
    var c := Coverage(st, picked);
    var c1 := Cover(st, st.terms[r], c);
    forall t | t in st.weights ensures Times(c1, t) == Times(Coverage(st, picked + {r}), t) {
      CoverTimes(st, st.terms[r], c, t);
      CountAdd(st, picked, r, t);
    }
    ValueAgrees(st, c1, Coverage(st, picked + {r}));
    GainIsMarginal(st, st.terms[r], c);
  }

  lemma CountMonotone(st: Store, a: set<Ref>, b: set<Ref>, t: Term)
    requires a <= b
    ensures Count(st, a, t) <= Count(st, b, t)
  {
    SetSize(set r | r in a && r in st.terms && t in st.terms[r], set r | r in b && r in st.terms && t in st.terms[r]);
  }

  lemma PriceFalls(st: Store, t: Term, j: nat, k: nat)
    requires WellFormed(st) && (t in st.weights ==> j <= k)
    ensures 0.0 <= Price(st, t, k) <= Price(st, t, j)
  {
    if t in st.weights {
      Scale(st.weights[t], st.damp(k), st.damp(j));
    }
  }

  /** Submodularity: a product's gain never rises as more is covered, and is never negative. */
  lemma {:induction false} GainFalls(st: Store, ts: seq<Term>, c: map<Term, nat>, c': map<Term, nat>)
    requires WellFormed(st)
    requires forall t | t in st.weights :: Times(c, t) <= Times(c', t)
    ensures 0.0 <= Gain(st, ts, c') <= Gain(st, ts, c)
  {
    if ts != [] {
      PriceFalls(st, ts[0], Times(c, ts[0]), Times(c', ts[0]));
      hide Price;
      GainFalls(st, ts[1..], c, c');
    }
  }

  lemma GainAfterFalls(st: Store, a: set<Ref>, b: set<Ref>, r: Ref)
    requires WellFormed(st) && a <= b && r in st.terms
    ensures 0.0 <= GainAfter(st, b, r) <= GainAfter(st, a, r)
  {
    forall t | t in st.weights ensures Times(Coverage(st, a), t) <= Times(Coverage(st, b), t) {
      CountMonotone(st, a, b, t);
    }
    GainFalls(st, st.terms[r], Coverage(st, a), Coverage(st, b));
  }

  // ---------------------------------------------------------------------------------
  // The classical greedy guarantee

  /** Monotone: more products never cover less. */
  lemma {:induction false} ObjectiveMonotone(st: Store, a: set<Ref>, b: set<Ref>)
    requires WellFormed(st) && a <= b <= st.terms.Keys
    ensures Objective(st, a) <= Objective(st, b)
    decreases |b - a|
  {
    if b - a == {} {
      assert a == b;
    } else {
      var r :| r in b - a;
      ObjectiveAdd(st, a, r);
      GainAfterFalls(st, a, a, r);
      assert b - (a + {r}) < b - a;
      SetSize(b - (a + {r}), b - a - {r});
      ObjectiveMonotone(st, a + {r}, b);
    }
  }

  lemma UnionStep(st: Store, picked: set<Ref>, rest: set<Ref>, r: Ref, g: real)
    requires WellFormed(st) && r in st.terms && g >= 0.0
    requires r !in picked ==> GainAfter(st, picked, r) <= g
    ensures Objective(st, picked + (rest + {r})) <= Objective(st, picked + rest) + g
  {
    hide *;
    if r in picked + rest {
      assert picked + (rest + {r}) == picked + rest;
    } else {
      assert picked + (rest + {r}) == picked + rest + {r};
      ObjectiveAdd(st, picked + rest, r);
      GainAfterFalls(st, picked, picked + rest, r);
    }
  }

  /** Adding `extra` to `picked` is worth at most `|extra|` times a bound on each first gain. */
  lemma {:induction false} UnionBound(st: Store, picked: set<Ref>, extra: set<Ref>, g: real)
    requires WellFormed(st) && extra <= st.terms.Keys && g >= 0.0
    requires forall r | r in extra && r !in picked :: GainAfter(st, picked, r) <= g
    ensures Objective(st, picked + extra) <= Objective(st, picked) + Steps(|extra|, g)
    decreases |extra|
  {
    if extra == {} {
      assert picked + extra == picked;
    } else {
      var r :| r in extra;
      var rest := extra - {r};
      assert Steps(|extra|, g) == Steps(|rest|, g) + g;
      hide *;
      UnionBound(st, picked, rest, g);
      UnionStep(st, picked, rest, r, g);
      assert rest + {r} == extra;
    }
  }

  ghost function SetOf(s: seq<Ref>): set<Ref> {
    set r | r in s
  }

  /** The i-th pick gains within `eps` of the best gain among the products not yet picked. */
  ghost predicate GreedyPick(st: Store, order: seq<Ref>, i: nat, eps: real)
    requires i < |order|
  {
    order[i] in st.terms && BestWithin(st, SetOf(order[..i]), order[i], eps)
  }

  ghost predicate BestWithin(st: Store, picked: set<Ref>, best: Ref, eps: real)
    requires best in st.terms
  {
    forall r | r in st.terms && r !in picked :: GainAfter(st, picked, r) <= GainAfter(st, picked, best) + eps
  }

  ghost predicate GreedyWithin(st: Store, order: seq<Ref>, eps: real) {
    Distinct(order) && forall i | 0 <= i < |order| :: GreedyPick(st, order, i, eps)
  }

  /** The share of a shortfall that one greedy pick leaves, for a window of `k`. */
  ghost function Keep(k: nat): real
    requires k > 0
  {
    1.0 - 1.0 / k as real
  }

  lemma KeepUnit(k: nat)
    requires k > 0
    ensures 0.0 <= Keep(k) <= 1.0
  {
    assert 0.0 <= 1.0 / k as real <= 1.0;
  }

  /** What may be missing after `i` picks. */
  ghost function Missing(q: real, f: real, eps: real, i: nat): real {
    Pow(q, i) * f + Steps(i, eps)
  }

  lemma ShortfallStep(d: real, g: real, k: nat, eps: real)
    requires k > 0 && d <= Steps(k, g + eps)
    ensures d - g <= Keep(k) * d + eps
  {
    StepsProduct(k, g + eps);
    ShareOf(d, k as real, g + eps);
    Minus(d, 1.0, 1.0 / k as real);
  }

  lemma ShareOf(d: real, k: real, g: real)
    requires k >= 1.0 && d <= k * g
    ensures d * (1.0 / k) <= g
  {
    var h := 1.0 / k;
    assert h * k == 1.0;
    NonNeg(h, k * g - d);
    Minus(h, k * g, d);
    Assoc(h, k, g);
  }

  lemma MissingStep(q: real, d: real, f: real, eps: real, i: nat)
    requires 0.0 <= q <= 1.0 && eps >= 0.0 && d <= Missing(q, f, eps, i)
    ensures q * d + eps <= Missing(q, f, eps, i + 1)
  {
    var e := Steps(i, eps);
    StepsMonotone(0, i, eps);
    NonNeg(q, Missing(q, f, eps, i) - d);
    Minus(q, Missing(q, f, eps, i), d);
    Plus(q, Pow(q, i) * f, e);
    Assoc(q, Pow(q, i), f);
    NonNeg(e, 1.0 - q);
    Minus(e, 1.0, q);
  }

  /** What is missing, when `r` is within `eps` of the best product left. */
  lemma MissingBound(st: Store, picked: set<Ref>, best: set<Ref>, k: nat, r: Ref, eps: real)
    requires WellFormed(st) && picked <= st.terms.Keys && best <= st.terms.Keys && |best| <= k && eps >= 0.0
    requires r in st.terms && BestWithin(st, picked, r, eps)
    ensures Objective(st, best) - Objective(st, picked) <= Steps(k, GainAfter(st, picked, r) + eps)
  {
    var g := GainAfter(st, picked, r) + eps;
    assert forall q | q in best && q !in picked :: GainAfter(st, picked, q) <= g;
    hide *;
    GainAfterFalls(st, picked, picked, r);
    UnionBound(st, picked, best, g);
    ObjectiveMonotone(st, best, picked + best);
    StepsMonotone(|best|, k, g);
  }

  /** The i-th pick gains at least a k-th of what is still missing, less the slack. */
  lemma PickGain(st: Store, order: seq<Ref>, eps: real, best: set<Ref>, k: nat, i: nat) returns (g: real)
    requires WellFormed(st) && GreedyWithin(st, order, eps) && eps >= 0.0
    requires best <= st.terms.Keys && |best| <= k && 0 < i <= |order|
    ensures Objective(st, SetOf(order[..i])) == Objective(st, SetOf(order[..i - 1])) + g
    ensures Objective(st, best) - Objective(st, SetOf(order[..i - 1])) <= Steps(k, g + eps)
  {
    hide *;
    PickFacts(st, order, eps, i - 1);
    g := GainAfter(st, SetOf(order[..i - 1]), order[i - 1]);
    ObjectiveAdd(st, SetOf(order[..i - 1]), order[i - 1]);
    MissingBound(st, SetOf(order[..i - 1]), best, k, order[i - 1], eps);
  }

  lemma PickFacts(st: Store, order: seq<Ref>, eps: real, i: nat)
    requires GreedyWithin(st, order, eps) && i < |order|
    ensures order[i] in st.terms && SetOf(order[..i]) <= st.terms.Keys
      && BestWithin(st, SetOf(order[..i]), order[i], eps)
    ensures order[i] !in SetOf(order[..i]) && SetOf(order[..i + 1]) == SetOf(order[..i]) + {order[i]}
  {
    Picks(st, order, eps);
    assert GreedyPick(st, order, i, eps);
    assert order[..i + 1] == order[..i] + [order[i]];
  }

  lemma {:induction false} ShortfallAfter(st: Store, order: seq<Ref>, eps: real, best: set<Ref>, k: nat, i: nat)
    requires WellFormed(st) && GreedyWithin(st, order, eps) && eps >= 0.0
    requires best <= st.terms.Keys && |best| <= k && 0 < k && i <= |order|
    ensures Objective(st, best) - Objective(st, SetOf(order[..i])) <= Missing(Keep(k), Objective(st, best), eps, i)
  {
    hide *;
    if i == 0 {
      NothingPicked(st, order, eps, best, k);
    } else {
      ShortfallAfter(st, order, eps, best, k, i - 1);
      var d := Objective(st, best) - Objective(st, SetOf(order[..i - 1]));
      var g := PickGain(st, order, eps, best, k, i);
      ShortfallStep(d, g, k, eps);
      KeepUnit(k);
      MissingStep(Keep(k), d, Objective(st, best), eps, i - 1);
    }
  }

  lemma NothingPicked(st: Store, order: seq<Ref>, eps: real, best: set<Ref>, k: nat)
    requires 0 < k
    ensures Objective(st, best) - Objective(st, SetOf(order[..0])) <= Missing(Keep(k), Objective(st, best), eps, 0)
  {
    assert SetOf(order[..0]) == {};
    EmptyObjective(st);
  }

  lemma Picks(st: Store, order: seq<Ref>, eps: real)
    requires GreedyWithin(st, order, eps)
    ensures forall r | r in order :: r in st.terms
  {
    forall r | r in order ensures r in st.terms {
      var i :| 0 <= i < |order| && order[i] == r;
      assert GreedyPick(st, order, i, eps);
    }
  }

  lemma EmptyObjective(st: Store)
    ensures Objective(st, {}) == 0.0
  {
    var zero: Term -> real := t => 0.0;
    forall t | t in st.weights ensures WorthAt(st, Coverage(st, {}))(t) == zero(t) {
      assert Count(st, {}, t) == 0;
    }
    SumAgrees(st.weights.Keys, WorthAt(st, Coverage(st, {})), zero);
    ZeroSum(st.weights.Keys, zero);
  }

  lemma {:induction false} ZeroSum(ks: set<Term>, f: Term -> real)
    requires forall t | t in ks :: f(t) == 0.0
    ensures Sum(ks, f) == 0.0
    decreases |ks|
  {
    if ks != {} {
      var t :| t in ks;
      SumPick(ks, f, t);
      ZeroSum(ks - {t}, f);
    }
  }

  /**
   * For every window k > 0, the products picked cover at least (1 - (1 - 1/k)^k) of what ANY
   * set of at most k products covers, less k times the slack.
   */
  lemma GreedyGuarantee(st: Store, order: seq<Ref>, eps: real, k: nat, best: set<Ref>)
    requires WellFormed(st) && GreedyWithin(st, order, eps) && eps >= 0.0 && 0 < k
    requires |order| == Min(k, |st.terms|)
    requires best <= st.terms.Keys && |best| <= k
    ensures Objective(st, SetOf(order)) >= Guarantee(k) * Objective(st, best) - Steps(k, eps)
  {
    hide *;
    WithinMissing(st, order, eps, k, best);
    GuaranteeIsWhatIsKept(k, Objective(st, best), eps);
  }

  /** The share of the best possible coverage a greedy window of `k` cannot fall below. */
  ghost function Guarantee(k: nat): real
    requires k > 0
  {
    1.0 - Pow(1.0 - 1.0 / k as real, k)
  }

  lemma GuaranteeIsWhatIsKept(k: nat, f: real, eps: real)
    requires k > 0
    ensures f - Missing(Keep(k), f, eps, k) == Guarantee(k) * f - Steps(k, eps)
  {
    Minus(f, 1.0, Pow(Keep(k), k));
  }

  lemma WithinMissing(st: Store, order: seq<Ref>, eps: real, k: nat, best: set<Ref>)
    requires WellFormed(st) && GreedyWithin(st, order, eps) && eps >= 0.0 && 0 < k
    requires |order| == Min(k, |st.terms|) && best <= st.terms.Keys && |best| <= k
    ensures Objective(st, best) - Objective(st, SetOf(order)) <= Missing(Keep(k), Objective(st, best), eps, k)
  {
    if |order| == k {
      assert order[..k] == order;
      ShortfallAfter(st, order, eps, best, k, k);
    } else {
      Picks(st, order, eps);
      EverythingPicked(st, order, best);
      KeepUnit(k);
      PowUnit(Keep(k), k);
      NonNeg(Pow(Keep(k), k), Objective(st, best));
      StepsMonotone(0, k, eps);
    }
  }

  lemma EverythingPicked(st: Store, order: seq<Ref>, best: set<Ref>)
    requires WellFormed(st) && Distinct(order) && |order| == |st.terms| && best <= st.terms.Keys
    requires forall r | r in order :: r in st.terms
    ensures 0.0 <= Objective(st, best) <= Objective(st, SetOf(order))
  {
    DistinctSize(order);
    assert SetOf(order) <= st.terms.Keys;
    SubsetOfSameSize(SetOf(order), st.terms.Keys);
    ObjectiveMonotone(st, best, SetOf(order));
    EmptyObjective(st);
    ObjectiveMonotone(st, {}, best);
  }

  lemma {:induction false} DistinctSize(s: seq<Ref>)
    requires Distinct(s)
    ensures |SetOf(s)| == |s|
  {
    if s != [] {
      DistinctSize(s[1..]);
      assert SetOf(s) == SetOf(s[1..]) + {s[0]};
    }
  }

  // ---------------------------------------------------------------------------------
  // The lazy loop over a heap of stale keys

  /** A heap tuple `(-gain, product_ref)`, as old as the last time it was pushed. */
  datatype Entry = Entry(key: real, ref: Ref)

  /** Python's order on those tuples; nothing but `product_ref` breaks a tie. */
  predicate EntryLeq(a: Entry, b: Entry) {
    a.key < b.key || (a.key == b.key && StrLeq(a.ref.id, b.ref.id))
  }

  ghost predicate IsLeast(heap: set<Entry>, e: Entry) {
    e in heap && forall x | x in heap :: EntryLeq(e, x)
  }

  lemma {:induction false} LeastExists(heap: set<Entry>)
    requires heap != {}
    ensures exists e :: IsLeast(heap, e)
    decreases |heap|
  {
    var x :| x in heap;
    StrLeqTotal(x.ref.id, x.ref.id);
    if heap - {x} == {} {
      assert heap == {x};
      assert IsLeast(heap, x);
    } else {
      LeastExists(heap - {x});
      var e :| IsLeast(heap - {x}, e);
      StrLeqTotal(e.ref.id, x.ref.id);
      if EntryLeq(e, x) {
        assert IsLeast(heap, e);
      } else {
        forall y | y in heap ensures EntryLeq(x, y) {
          if y != x {
            EntryLeqTransitive(x, e, y);
          }
        }
        assert IsLeast(heap, x);
      }
    }
  }

  lemma EntryLeqTransitive(a: Entry, b: Entry, c: Entry)
    requires EntryLeq(a, b) && EntryLeq(b, c)
    ensures EntryLeq(a, c)
  {
    if a.key == b.key == c.key {
      StrLeqTransitive(a.ref.id, b.ref.id, c.ref.id);
    }
  }

  lemma LeastUnique(heap: set<Entry>, a: Entry, b: Entry)
    requires IsLeast(heap, a) && IsLeast(heap, b)
    ensures a == b
  {
    StrLeqAntisymmetric(a.ref.id, b.ref.id);
  }

  ghost function Least(heap: set<Entry>): (e: Entry)
    requires heap != {}
    ensures IsLeast(heap, e)
  {
    LeastExists(heap);
    var e :| IsLeast(heap, e);
    e
  }

  function FreshKey(st: Store, r: Ref, c: map<Term, nat>): real
    requires r in st.terms
  {
    -Gain(st, st.terms[r], c)
  }

  ghost predicate HeapOf(st: Store, heap: set<Entry>) {
    forall e | e in heap :: e.ref in st.terms
  }

  /** The entries a pop would send back: their stored key is more than `eps` below the fresh one. */
  ghost function Stale(st: Store, heap: set<Entry>, c: map<Term, nat>, eps: real): set<Entry>
    requires HeapOf(st, heap)
  {
    set e | e in heap && FreshKey(st, e.ref, c) > e.key + eps
  }

  ghost function Repushed(st: Store, heap: set<Entry>, c: map<Term, nat>): set<Entry>
    requires HeapOf(st, heap) && heap != {}
  {
    var e := Least(heap);
    heap - {e} + {Entry(FreshKey(st, e.ref, c), e.ref)}
  }

  /** A re-push never grows the heap and strictly shrinks what is stale in it. */
  lemma RepushShrinks(st: Store, heap: set<Entry>, c: map<Term, nat>, eps: real)
    requires HeapOf(st, heap) && heap != {} && eps >= 0.0 && Least(heap) in Stale(st, heap, c, eps)
    ensures HeapOf(st, Repushed(st, heap, c)) && |Repushed(st, heap, c)| <= |heap|
    ensures |Stale(st, Repushed(st, heap, c), c, eps)| < |Stale(st, heap, c, eps)|
  {
    var e := Least(heap);
    assert Stale(st, Repushed(st, heap, c), c, eps) == Stale(st, heap, c, eps) - {e};
  }

  /** The lazy loop from a heap and a coverage, with room for `room` more products. */
  ghost function Lazy(st: Store, heap: set<Entry>, c: map<Term, nat>, room: int, eps: real): seq<Ref>
    requires HeapOf(st, heap) && eps >= 0.0
    decreases |heap|, |Stale(st, heap, c, eps)|
  {
    if heap == {} || room <= 0 then []
    else
      var e := Least(heap);
      if FreshKey(st, e.ref, c) <= e.key + eps then
        [e.ref] + Lazy(st, heap - {e}, Cover(st, st.terms[e.ref], c), room - 1, eps)
      else
        RepushShrinks(st, heap, c, eps);
        Lazy(st, Repushed(st, heap, c), c, room, eps)
  }

  ghost function Initial(st: Store): set<Entry> {
    set r | r in st.terms :: Entry(FreshKey(st, r, map[]), r)
  }

  /** The loop that covers an accepted product's terms, in place. */
  method CoverTerms(st: Store, ts: seq<Term>, before: map<Term, nat>) returns (covered: map<Term, nat>)
    ensures covered == Cover(st, ts, before)
  {
    covered := before;
    for i := 0 to |ts|
      invariant Cover(st, ts[i..], covered) == Cover(st, ts, before)
    {
      if ts[i] in st.weights {
        covered := covered[ts[i] := Times(covered, ts[i]) + 1];
      }
    }
  }

  /** What one iteration of the loop leaves to do, stated of the list it will have returned. */
  lemma LazyStep(st: Store, heap: set<Entry>, c: map<Term, nat>, order: seq<Ref>, room: int, eps: real)
    requires HeapOf(st, heap) && eps >= 0.0 && heap != {} && room > 0
    ensures var e := Least(heap);
      e.ref in st.terms && HeapOf(st, heap - {e}) && |heap - {e}| < |heap| &&
      if FreshKey(st, e.ref, c) <= e.key + eps then
        order + Lazy(st, heap, c, room, eps)
        == order + [e.ref] + Lazy(st, heap - {e}, Cover(st, st.terms[e.ref], c), room - 1, eps)
      else
        var heap' := heap - {e} + {Entry(FreshKey(st, e.ref, c), e.ref)};
        && HeapOf(st, heap')
        && Lazy(st, heap, c, room, eps) == Lazy(st, heap', c, room, eps)
        && |heap'| <= |heap|
        && |Stale(st, heap', c, eps)| < |Stale(st, heap, c, eps)|
  {
    var e := Least(heap);
    if FreshKey(st, e.ref, c) > e.key + eps {
      RepushShrinks(st, heap, c, eps);
    }
  }

  lemma LazyDone(st: Store, heap: set<Entry>, c: map<Term, nat>, order: seq<Ref>, room: int, eps: real)
    requires HeapOf(st, heap) && eps >= 0.0 && (heap == {} || room <= 0)
    ensures order + Lazy(st, heap, c, room, eps) == order
  {
  }

  /** `_window_order`: heapify, then pop, accept or push back, until the window is full. */
  method WindowOrder(st: Store, window: int, eps: real) returns (order: seq<Ref>)
    requires WellFormed(st) && eps >= 0.0
    ensures order == Lazy(st, Initial(st), map[], window, eps)
  {
    hide *;
    var covered: map<Term, nat> := map[];
    var heap := Heapify(st);
    order := [];
    while heap != {} && |order| < window
      invariant HeapOf(st, heap)
      invariant order + Lazy(st, heap, covered, window - |order|, eps) == Lazy(st, Initial(st), map[], window, eps)
      decreases |heap|, |Stale(st, heap, covered, eps)|
    {
      var e := Pop(heap);
      LazyStep(st, heap, covered, order, window - |order|, eps);
      var current := FreshKey(st, e.ref, covered);
      if current <= e.key + eps {
        heap, order := heap - {e}, order + [e.ref];
        covered := CoverTerms(st, st.terms[e.ref], covered);
      } else {
        heap := heap - {e} + {Entry(current, e.ref)};
      }
    }
    LazyDone(st, heap, covered, order, window - |order|, eps);
  }

  /** Every product enters the heap with its gain over nothing covered. */
  method Heapify(st: Store) returns (heap: set<Entry>)
    ensures heap == Initial(st) && HeapOf(st, heap)
  {
    heap := set r | r in st.terms :: Entry(FreshKey(st, r, map[]), r);
  }

  /** `heapq.heappop`: which tuple comes off; the heap's layout is not part of this model. */
  method Pop(heap: set<Entry>) returns (e: Entry)
    requires heap != {}
    ensures e == Least(heap)
  {
    LeastExists(heap);
    e :| e in heap && forall x | x in heap :: EntryLeq(e, x);
    LeastUnique(heap, e, Least(heap));
  }

  // ---------------------------------------------------------------------------------
  // What the loop returns

  /** `e` carries the gain its product had at some earlier point of the run. */
  ghost predicate KeyFrom(st: Store, picked: seq<Ref>, e: Entry) {
    e.ref in st.terms &&
    exists j :: 0 <= j <= |picked| && KeyAt(st, picked, e, j)
  }

  ghost predicate KeyAt(st: Store, picked: seq<Ref>, e: Entry, j: nat)
    requires j <= |picked| && e.ref in st.terms
  {
    e.key == -GainAfter(st, SetOf(picked[..j]), e.ref)
  }

  /** The source's `covered` holds, for every weighted term, how many picked products carry it. */
  ghost predicate Covers(st: Store, c: map<Term, nat>, picked: set<Ref>) {
    forall t | t in st.weights :: Times(c, t) == Count(st, picked, t)
  }

  /** Every product is either picked or has exactly one entry in the heap. */
  ghost predicate OnePerProduct(st: Store, heap: set<Entry>, picked: set<Ref>) {
    && picked <= st.terms.Keys
    && (forall r | r in st.terms && r !in picked :: exists e :: e in heap && e.ref == r)
    && (forall e | e in heap :: e.ref in st.terms && e.ref !in picked)
    && (forall e, e' | e in heap && e' in heap && e.ref == e'.ref :: e == e')
  }

  ghost predicate Running(st: Store, heap: set<Entry>, c: map<Term, nat>, picked: seq<Ref>) {
    && Distinct(picked)
    && OnePerProduct(st, heap, SetOf(picked))
    && Covers(st, c, SetOf(picked))
    && (forall e | e in heap :: KeyFrom(st, picked, e))
  }

  lemma FreshIsGain(st: Store, c: map<Term, nat>, picked: set<Ref>, r: Ref)
    requires Covers(st, c, picked) && r in st.terms
    ensures FreshKey(st, r, c) == -GainAfter(st, picked, r)
  {
    GainAgrees(st, st.terms[r], c, Coverage(st, picked));
  }

  /** A stored key is never above the fresh one: this is the submodularity the heap relies on. */
  lemma StoredBelowFresh(st: Store, picked: seq<Ref>, e: Entry)
    requires WellFormed(st) && KeyFrom(st, picked, e)
    ensures e.key <= -GainAfter(st, SetOf(picked), e.ref)
  {
    var j :| 0 <= j <= |picked| && KeyAt(st, picked, e, j);
    assert SetOf(picked[..j]) <= SetOf(picked);
    GainAfterFalls(st, SetOf(picked[..j]), SetOf(picked), e.ref);
  }

  lemma InitialRunning(st: Store)
    requires WellFormed(st)
    ensures Running(st, Initial(st), map[], [])
  {
    assert SetOf([]) == {};
    assert Covers(st, map[], {}) by {
      forall t | t in st.weights ensures Count(st, {}, t) == 0 {
      }
    }
    forall r | r in st.terms ensures KeyFrom(st, [], Entry(FreshKey(st, r, map[]), r)) {
      FreshIsGain(st, map[], {}, r);
      assert KeyAt(st, [], Entry(FreshKey(st, r, map[]), r), 0);
    }
    forall r | r in st.terms ensures exists e :: e in Initial(st) && e.ref == r {
      assert Entry(FreshKey(st, r, map[]), r) in Initial(st);
    }
  }

  lemma CoverKeepsCount(st: Store, c: map<Term, nat>, picked: set<Ref>, r: Ref)
    requires WellFormed(st) && Covers(st, c, picked) && r in st.terms && r !in picked
    ensures Covers(st, Cover(st, st.terms[r], c), picked + {r})
  {
    forall t | t in st.weights ensures Times(Cover(st, st.terms[r], c), t) == Count(st, picked + {r}, t) {
      CoverTimes(st, st.terms[r], c, t);
      CountAdd(st, picked, r, t);
    }
  }

  lemma KeyKept(st: Store, picked: seq<Ref>, r: Ref, e: Entry)
    requires KeyFrom(st, picked, e)
    ensures KeyFrom(st, picked + [r], e)
  {
    var j :| 0 <= j <= |picked| && KeyAt(st, picked, e, j);
    assert (picked + [r])[..j] == picked[..j];
    assert KeyAt(st, picked + [r], e, j);
  }

  lemma SetOfAppend(picked: seq<Ref>, r: Ref)
    ensures SetOf(picked + [r]) == SetOf(picked) + {r}
  {
  }

  lemma AcceptRunning(st: Store, heap: set<Entry>, c: map<Term, nat>, picked: seq<Ref>, e: Entry)
    requires WellFormed(st) && Running(st, heap, c, picked) && e in heap
    ensures Running(st, heap - {e}, Cover(st, st.terms[e.ref], c), picked + [e.ref])
  {
    SetOfAppend(picked, e.ref);
    CoverKeepsCount(st, c, SetOf(picked), e.ref);
    forall x | x in heap - {e} ensures KeyFrom(st, picked + [e.ref], x) {
      KeyKept(st, picked, e.ref, x);
    }
    hide Covers, KeyFrom, Cover, WellFormed;
    AcceptOnePerProduct(st, heap, SetOf(picked), e);
  }

  lemma AcceptOnePerProduct(st: Store, heap: set<Entry>, picked: set<Ref>, e: Entry)
    requires OnePerProduct(st, heap, picked) && e in heap
    ensures OnePerProduct(st, heap - {e}, picked + {e.ref})
  {
    forall r | r in st.terms && r !in picked + {e.ref} ensures exists x :: x in heap - {e} && x.ref == r {
      var x :| x in heap && x.ref == r;
      assert x in heap - {e};
    }
  }

  lemma RepushRunning(st: Store, heap: set<Entry>, c: map<Term, nat>, picked: seq<Ref>)
    requires WellFormed(st) && Running(st, heap, c, picked) && heap != {} && HeapOf(st, heap)
    ensures Running(st, Repushed(st, heap, c), c, picked)
  {
    var e := Least(heap);
    var e' := Entry(FreshKey(st, e.ref, c), e.ref);
    FreshIsGain(st, c, SetOf(picked), e.ref);
    assert picked[..|picked|] == picked;
    assert KeyAt(st, picked, e', |picked|);
    assert KeyFrom(st, picked, e');
    RepushOnePerProduct(st, heap, SetOf(picked), e, e');
  }

  lemma RepushOnePerProduct(st: Store, heap: set<Entry>, picked: set<Ref>, e: Entry, e': Entry)
    requires OnePerProduct(st, heap, picked) && e in heap && e'.ref == e.ref
    ensures OnePerProduct(st, heap - {e} + {e'}, picked)
  {
    forall r | r in st.terms && r !in picked ensures exists x :: x in heap - {e} + {e'} && x.ref == r {
      var x :| x in heap && x.ref == r;
      assert (if x == e then e' else x) in heap - {e} + {e'};
    }
  }

  /** An accepted product is within the slack of the best one left. */
  lemma AcceptedIsGreedy(st: Store, heap: set<Entry>, c: map<Term, nat>, picked: seq<Ref>, e: Entry, eps: real)
    requires WellFormed(st) && Running(st, heap, c, picked) && IsLeast(heap, e)
    requires e.ref in st.terms && FreshKey(st, e.ref, c) <= e.key + eps
    ensures BestWithin(st, SetOf(picked), e.ref, eps)
  {
    FreshIsGain(st, c, SetOf(picked), e.ref);
    forall r | r in st.terms && r !in SetOf(picked)
      ensures GainAfter(st, SetOf(picked), r) <= GainAfter(st, SetOf(picked), e.ref) + eps
    {
      var x :| x in heap && x.ref == r;
      StoredBelowFresh(st, picked, x);
    }
  }

  lemma AcceptKeeps(st: Store, heap: set<Entry>, c: map<Term, nat>, eps: real, picked: seq<Ref>, e: Entry)
    requires WellFormed(st) && eps >= 0.0 && HeapOf(st, heap)
    requires Running(st, heap, c, picked) && GreedyWithin(st, picked, eps)
    requires IsLeast(heap, e) && FreshKey(st, e.ref, c) <= e.key + eps
    ensures |heap - {e}| == |heap| - 1
    ensures Running(st, heap - {e}, Cover(st, st.terms[e.ref], c), picked + [e.ref])
    ensures GreedyWithin(st, picked + [e.ref], eps)
  {
    AcceptRunning(st, heap, c, picked, e);
    AcceptedIsGreedy(st, heap, c, picked, e, eps);
    GreedyAppend(st, picked, e.ref, eps);
  }

  lemma RepushKeeps(st: Store, heap: set<Entry>, c: map<Term, nat>, picked: seq<Ref>, e: Entry)
    requires WellFormed(st) && HeapOf(st, heap) && Running(st, heap, c, picked)
    requires heap != {} && e == Least(heap)
    ensures |heap - {e} + {Entry(FreshKey(st, e.ref, c), e.ref)}| == |heap|
    ensures Running(st, heap - {e} + {Entry(FreshKey(st, e.ref, c), e.ref)}, c, picked)
  {
    RepushRunning(st, heap, c, picked);
    RepushSize(st, heap, c, picked);
  }

  /** The result continues `picked` greedily, and is exactly as long as the window and the heap allow. */
  lemma {:induction false} LazyGreedy(st: Store, heap: set<Entry>, c: map<Term, nat>, room: int, eps: real,
      picked: seq<Ref>)
    requires WellFormed(st) && eps >= 0.0 && HeapOf(st, heap)
    requires Running(st, heap, c, picked) && GreedyWithin(st, picked, eps)
    ensures GreedyWithin(st, picked + Lazy(st, heap, c, room, eps), eps)
    ensures |picked + Lazy(st, heap, c, room, eps)| == |picked| + Max(0, Min(room, |heap|))
    decreases |heap|, |Stale(st, heap, c, eps)|
  {
    hide Running, GreedyWithin, Lazy, Stale, HeapOf, FreshKey, Cover, IsLeast, WellFormed;
    if heap == {} || room <= 0 {
      LazyDone(st, heap, c, picked, room, eps);
    } else {
      var e := Least(heap);
      LazyStep(st, heap, c, picked, room, eps);
      if FreshKey(st, e.ref, c) <= e.key + eps {
        AcceptKeeps(st, heap, c, eps, picked, e);
        LazyGreedy(st, heap - {e}, Cover(st, st.terms[e.ref], c), room - 1, eps, picked + [e.ref]);
      } else {
        RepushKeeps(st, heap, c, picked, e);
        LazyGreedy(st, heap - {e} + {Entry(FreshKey(st, e.ref, c), e.ref)}, c, room, eps, picked);
      }
    }
  }

  lemma RepushSize(st: Store, heap: set<Entry>, c: map<Term, nat>, picked: seq<Ref>)
    requires Running(st, heap, c, picked) && heap != {} && HeapOf(st, heap)
    ensures |Repushed(st, heap, c)| == |heap|
  {
    var e := Least(heap);
    var e' := Entry(FreshKey(st, e.ref, c), e.ref);
    assert e' !in heap - {e};
  }

  lemma GreedyAppend(st: Store, picked: seq<Ref>, r: Ref, eps: real)
    requires GreedyWithin(st, picked, eps) && r in st.terms && r !in SetOf(picked)
    requires BestWithin(st, SetOf(picked), r, eps)
    ensures GreedyWithin(st, picked + [r], eps)
  {
    forall i | 0 <= i < |picked + [r]| ensures GreedyPick(st, picked + [r], i, eps) {
      assert (picked + [r])[..i] == picked[..i];
      if i < |picked| {
        assert GreedyPick(st, picked, i, eps);
      } else {
        assert picked[..i] == picked;
      }
    }
  }

  lemma {:induction false} HeapSize(st: Store, heap: set<Entry>, picked: set<Ref>)
    requires OnePerProduct(st, heap, picked)
    ensures |heap| == |st.terms.Keys - picked|
    decreases |heap|
  {
    if heap == {} {
      assert st.terms.Keys - picked == {};
    } else {
      var e :| e in heap;
      AcceptOnePerProduct(st, heap, picked, e);
      HeapSize(st, heap - {e}, picked + {e.ref});
      assert st.terms.Keys - (picked + {e.ref}) == st.terms.Keys - picked - {e.ref};
    }
  }

  lemma InitialSize(st: Store)
    requires WellFormed(st)
    ensures HeapOf(st, Initial(st)) && |Initial(st)| == |st.terms|
    ensures forall eps: real :: GreedyWithin(st, [], eps)
  {
    InitialRunning(st);
    assert SetOf([]) == {} && st.terms.Keys - {} == st.terms.Keys;
    HeapSize(st, Initial(st), {});
  }

  /** The list `WindowOrder` returns. */
  ghost function Window(st: Store, window: int, eps: real): seq<Ref>
    requires eps >= 0.0
  {
    Lazy(st, Initial(st), map[], window, eps)
  }

  /** Distinct products, as many as the window and the store allow, each within the slack of the best left. */
  lemma WindowIsGreedy(st: Store, window: int, eps: real)
    requires WellFormed(st) && eps >= 0.0
    ensures GreedyWithin(st, Window(st, window, eps), eps)
    ensures |Window(st, window, eps)| == Max(0, Min(window, |st.terms|))
  {
    InitialRunning(st);
    InitialSize(st);
    hide Running, GreedyWithin, Lazy, WellFormed;
    LazyGreedy(st, Initial(st), map[], window, eps, []);
    assert [] + Window(st, window, eps) == Window(st, window, eps);
  }

  /** The greedy guarantee, of what the lazy loop returns, against every set of at most `window` products. */
  lemma WindowCoverage(st: Store, window: nat, eps: real, best: set<Ref>)
    requires WellFormed(st) && eps >= 0.0 && window > 0
    requires best <= st.terms.Keys && |best| <= window
    ensures Objective(st, SetOf(Window(st, window, eps))) >= Guarantee(window) * Objective(st, best) - Steps(window,
      eps)
  {
    WindowIsGreedy(st, window, eps);
    hide GreedyWithin, WellFormed, Window, Objective, Guarantee, Steps;
    GreedyGuarantee(st, Window(st, window, eps), eps, window, best);
  }

  // ---------------------------------------------------------------------------------
  // The quadratic loop, and when the lazy one agrees with it

  /** Every product not yet picked, priced afresh. */
  ghost function Fresh(st: Store, picked: set<Ref>): set<Entry> {
    set r | r in st.terms && r !in picked :: Entry(-GainAfter(st, picked, r), r)
  }

  /** The quadratic loop: re-price everything left, take the best, ties to the smaller `product_ref`. */
  ghost function Eager(st: Store, picked: seq<Ref>, room: int): seq<Ref>
    decreases Max(0, room)
  {
    if room <= 0 || Fresh(st, SetOf(picked)) == {} then []
    else
      var best := Least(Fresh(st, SetOf(picked))).ref;
      [best] + Eager(st, picked + [best], room - 1)
  }

  /** One more covering of `t` after `k` lowers its price by more than `eps`. */
  ghost predicate DropsBy(st: Store, t: Term, k: nat, eps: real) {
    Price(st, t, k) - Price(st, t, k + 1) > eps
  }

  /** Saturation is never finer than the slack, over as many coverings as the store has products. */
  ghost predicate Coarse(st: Store, eps: real) {
    forall t, k: nat :: t in st.weights && k < |st.terms| ==> DropsBy(st, t, k, eps)
  }

  /** A gain that moved at all moved by more than the slack. */
  lemma {:induction false} GainDrops(st: Store, ts: seq<Term>, c: map<Term, nat>, c': map<Term, nat>, eps: real)
    requires WellFormed(st) && Coarse(st, eps) && eps >= 0.0
    requires forall t | t in st.weights :: Times(c, t) <= Times(c', t) <= |st.terms|
    ensures Gain(st, ts, c) == Gain(st, ts, c') || Gain(st, ts, c) > Gain(st, ts, c') + eps
  {
    if ts != [] {
      var t := ts[0];
      GainDrops(st, ts[1..], c, c', eps);
      GainFalls(st, ts[1..], c, c');
      PriceDrops(st, t, Times(c, t), Times(c', t), eps);
    }
  }

  lemma PriceDrops(st: Store, t: Term, j: nat, k: nat, eps: real)
    requires WellFormed(st) && Coarse(st, eps) && eps >= 0.0 && (t in st.weights ==> j <= k <= |st.terms|)
    ensures Price(st, t, j) == Price(st, t, k) || Price(st, t, j) > Price(st, t, k) + eps
  {
    if t in st.weights && j < k {
      assert DropsBy(st, t, j, eps);
      PriceFalls(st, t, j + 1, k);
    }
  }

  /** An accepted entry's stored key is exact: the loop had nothing left to re-price in it. */
  lemma AcceptedIsExact(st: Store, picked: seq<Ref>, e: Entry, eps: real)
    requires WellFormed(st) && KeyFrom(st, picked, e) && eps >= 0.0 && (eps == 0.0 || Coarse(st, eps))
    requires -GainAfter(st, SetOf(picked), e.ref) <= e.key + eps
    ensures e.key == -GainAfter(st, SetOf(picked), e.ref)
  {
    StoredBelowFresh(st, picked, e);
    if eps > 0.0 {
      var j :| 0 <= j <= |picked| && KeyAt(st, picked, e, j);
      assert SetOf(picked[..j]) <= SetOf(picked);
      forall t | t in st.weights
        ensures Times(Coverage(st, SetOf(picked[..j])), t) <= Times(Coverage(st, SetOf(picked)), t) <= |st.terms|
      {
        CountMonotone(st, SetOf(picked[..j]), SetOf(picked), t);
        SetSize((set r | r in SetOf(picked) && r in st.terms && t in st.terms[r]), st.terms.Keys);
      }
      GainDrops(st, st.terms[e.ref], Coverage(st, SetOf(picked[..j])), Coverage(st, SetOf(picked)), eps);
    }
  }

  /** So the accepted product is the one the quadratic loop would take. */
  lemma AcceptedIsEager(st: Store, heap: set<Entry>, c: map<Term, nat>, picked: seq<Ref>, e: Entry, eps: real)
    requires WellFormed(st) && Running(st, heap, c, picked) && IsLeast(heap, e) && e.ref in st.terms
    requires eps >= 0.0 && (eps == 0.0 || Coarse(st, eps)) && FreshKey(st, e.ref, c) <= e.key + eps
    ensures Fresh(st, SetOf(picked)) != {} && Least(Fresh(st, SetOf(picked))).ref == e.ref
  {
    FreshIsGain(st, c, SetOf(picked), e.ref);
    AcceptedIsExact(st, picked, e, eps);
    assert e in Fresh(st, SetOf(picked));
    forall x | x in Fresh(st, SetOf(picked)) ensures EntryLeq(e, x) {
      var y :| y in heap && y.ref == x.ref;
      StoredBelowFresh(st, picked, y);
      assert EntryLeq(e, y);
    }
    LeastUnique(Fresh(st, SetOf(picked)), e, Least(Fresh(st, SetOf(picked))));
  }

  lemma NothingLeft(st: Store, heap: set<Entry>, picked: set<Ref>)
    requires OnePerProduct(st, heap, picked)
    ensures heap == {} <==> Fresh(st, picked) == {}
  {
    if heap == {} {
    } else {
      var e :| e in heap;
      assert Entry(-GainAfter(st, picked, e.ref), e.ref) in Fresh(st, picked);
    }
  }

  lemma EagerStep(st: Store, picked: seq<Ref>, room: int, r: Ref)
    requires room > 0 && Fresh(st, SetOf(picked)) != {} && Least(Fresh(st, SetOf(picked))).ref == r
    ensures picked + Eager(st, picked, room) == picked + [r] + Eager(st, picked + [r], room - 1)
  {
  }

  lemma EagerDone(st: Store, heap: set<Entry>, c: map<Term, nat>, picked: seq<Ref>, room: int)
    requires Running(st, heap, c, picked) && (heap == {} || room <= 0)
    ensures picked + Eager(st, picked, room) == picked
  {
    NothingLeft(st, heap, SetOf(picked));
  }

  lemma {:induction false} LazyEager(st: Store, heap: set<Entry>, c: map<Term, nat>, room: int, eps: real,
      picked: seq<Ref>)
    requires WellFormed(st) && eps >= 0.0 && HeapOf(st, heap) && (eps == 0.0 || Coarse(st, eps))
    requires Running(st, heap, c, picked) && GreedyWithin(st, picked, eps)
    ensures picked + Lazy(st, heap, c, room, eps) == picked + Eager(st, picked, room)
    decreases |heap|, |Stale(st, heap, c, eps)|
  {
    hide Running, GreedyWithin, Lazy, Stale, HeapOf, FreshKey, Cover, IsLeast, WellFormed, Eager, Fresh, Coarse;
    if heap == {} || room <= 0 {
      LazyDone(st, heap, c, picked, room, eps);
      EagerDone(st, heap, c, picked, room);
    } else {
      var e := Least(heap);
      LazyStep(st, heap, c, picked, room, eps);
      if FreshKey(st, e.ref, c) <= e.key + eps {
        AcceptKeeps(st, heap, c, eps, picked, e);
        AcceptedIsEager(st, heap, c, picked, e, eps);
        EagerStep(st, picked, room, e.ref);
        LazyEager(st, heap - {e}, Cover(st, st.terms[e.ref], c), room - 1, eps, picked + [e.ref]);
      } else {
        RepushKeeps(st, heap, c, picked, e);
        LazyEager(st, heap - {e} + {Entry(FreshKey(st, e.ref, c), e.ref)}, c, room, eps, picked);
      }
    }
  }

  /**
   * "Exact, not approximate": element for element the answer the quadratic loop gives, with an
   * exact comparison, and with the coded slack on every store whose saturation steps exceed it.
   */
  lemma LazyIsEager(st: Store, window: int, eps: real)
    requires WellFormed(st) && eps >= 0.0 && (eps == 0.0 || Coarse(st, eps))
    ensures Window(st, window, eps) == Eager(st, [], window)
  {
    hide Running, GreedyWithin, Lazy, WellFormed, Eager, Coarse;
    InitialRunning(st);
    InitialSize(st);
    LazyEager(st, Initial(st), map[], window, eps, []);
    assert [] + Window(st, window, eps) == Window(st, window, eps);
    assert [] + Eager(st, [], window) == Eager(st, [], window);
  }

  // ---------------------------------------------------------------------------------
  // How much work the laziness can cost

  /** The pops the loop makes, accepted or sent back. */
  ghost function Pops(st: Store, heap: set<Entry>, c: map<Term, nat>, room: int, eps: real): nat
    requires HeapOf(st, heap) && eps >= 0.0
    decreases |heap|, |Stale(st, heap, c, eps)|
  {
    if heap == {} || room <= 0 then 0
    else
      var e := Least(heap);
      if FreshKey(st, e.ref, c) <= e.key + eps then
        1 + Pops(st, heap - {e}, Cover(st, st.terms[e.ref], c), room - 1, eps)
      else
        RepushShrinks(st, heap, c, eps);
        1 + Pops(st, Repushed(st, heap, c), c, room, eps)
  }

  /** Between two picks each entry is sent back at most once, so a window costs at most `room` scans of the heap. */
  lemma {:induction false} PopsBound(st: Store, heap: set<Entry>, c: map<Term, nat>, room: nat, eps: real)
    requires HeapOf(st, heap) && eps >= 0.0
    ensures Pops(st, heap, c, room, eps) <= |Stale(st, heap, c, eps)| + room * |heap|
    decreases |heap|, |Stale(st, heap, c, eps)|
  {
    if heap == {} || room <= 0 {
    } else {
      var e := Least(heap);
      if FreshKey(st, e.ref, c) <= e.key + eps {
        var c' := Cover(st, st.terms[e.ref], c);
        PopsBound(st, heap - {e}, c', room - 1, eps);
        SetSize(Stale(st, heap - {e}, c', eps), heap - {e});
        Scan(|heap|, room);
      } else {
        RepushShrinks(st, heap, c, eps);
        PopsBound(st, Repushed(st, heap, c), c, room, eps);
        Fewer(|Repushed(st, heap, c)|, |heap|, room);
      }
    }
  }

  lemma Scan(n: nat, room: nat)
    requires n > 0 && room > 0
    ensures 1 + (n - 1) + (room - 1) * (n - 1) <= room * n
  {
    assert room * n == (room - 1) * (n - 1) + (room - 1) + n;
  }

  lemma Fewer(m: nat, n: nat, room: nat)
    requires m <= n
    ensures room * m <= room * n
  {
  }
}
