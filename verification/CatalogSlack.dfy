// The coded comparison of scripts/build_demo_deployment.py:711 carries a slack of 1e-12. With it the lazy
// loop is not the quadratic loop for ARBITRARY weights: a store whose saturation step is finer than the
// slack gets a different second product. The program's own weights are far above that (see CatalogExact).
module CatalogSlack {
  import opened CatalogWindow

  const SLACK: real := 0.000000000001

  /** `1.0 / math.sqrt(1.0 + k)`, for any function that squares back to `1 + k`. */
  function InverseRoot(root: nat -> real): nat -> real {
    (k: nat) => if root(k) == 0.0 then 1.0 else 1.0 / root(k)
  }

  ghost predicate IsRootOfSuccessor(root: nat -> real) {
    forall k: nat :: root(k) > 0.0 && root(k) * root(k) == 1.0 + k as real
  }

  lemma InverseAntitone(x: real, y: real)
    requires 0.0 < x <= y
    ensures 0.0 < 1.0 / y <= 1.0 / x
    ensures x < y ==> 1.0 / y < 1.0 / x
  {
  }

  lemma SquareMonotone(x: real, y: real)
    requires 0.0 < x <= y
    ensures x * x <= y * y
    ensures x < y ==> x * x < y * y
  {
    assert x * (y - x) >= 0.0 && y * (y - x) >= 0.0;
    assert x < y ==> x * (y - x) > 0.0;
  }

  lemma RootMonotone(x: real, y: real)
    requires 0.0 < x && 0.0 < y && x * x <= y * y
    ensures x <= y
  {
    if y < x {
      SquareMonotone(y, x);
    }
  }

  /** The source's damping is one of those the theorems are about. */
  lemma SqrtDamping(root: nat -> real)
    requires IsRootOfSuccessor(root)
    ensures Damping(InverseRoot(root))
    ensures InverseRoot(root)(0) == 1.0 && InverseRoot(root)(1) < 0.8
  {
    forall j: nat, k: nat | j <= k ensures 0.0 < InverseRoot(root)(k) <= InverseRoot(root)(j) {
      RootMonotone(root(j), root(k));
      InverseAntitone(root(j), root(k));
    }
    RootOne(root(0));
    RootTwo(root(1));
  }

  lemma RootOne(x: real)
    requires x > 0.0 && x * x == 1.0
    ensures 1.0 / x == 1.0
  {
    assert (x - 1.0) * (x + 1.0) == 0.0;
  }

  lemma RootTwo(x: real)
    requires x > 0.0 && x * x == 2.0
    ensures 1.0 / x < 0.8
  {
    if x <= 1.25 {
      SquareMonotone(x, 1.25);
    } else {
      InverseAntitone(1.25, x);
    }
  }

  const HEAVY: Term := Term("h")
  const SHARED: Term := Term("x")
  const OWN: Term := Term("y")
  const RIVAL: Term := Term("z")
  const PA: Ref := Ref("a")
  const PB: Ref := Ref("b")
  const PC: Ref := Ref("c")

  /** "c" is picked first and covers the term that "a" shares with it; "b" is then the better product. */
  function SlackStore(damp: nat -> real): Store {
    Store(map[PA := [SHARED, OWN], PB := [RIVAL], PC := [SHARED, HEAVY]],
          map[HEAVY := 10.0, SHARED := SLACK, OWN := 1.0, RIVAL := 1.0 + 0.8 * SLACK],
          damp)
  }

  lemma GainTwo(st: Store, t: Term, u: Term, c: map<Term, nat>)
    ensures Gain(st, [t, u], c) == Price(st, t, Times(c, t)) + Price(st, u, Times(c, u))
  {
    assert [t, u][1..] == [u] && [u][1..] == [];
    assert Gain(st, [u], c) == Price(st, u, Times(c, u)) + Gain(st, [], c);
  }

  lemma SlackKeys(damp: nat -> real, covered: bool)
    requires damp(0) == 1.0
    ensures var st := SlackStore(damp);
      var c := if covered then map[SHARED := 1, HEAVY := 1] else map[];
      && FreshKey(st, PA, c) == -(SLACK * damp(if covered then 1 else 0) + 1.0)
      && FreshKey(st, PB, c) == -(1.0 + 0.8 * SLACK)
      && (!covered ==> FreshKey(st, PC, c) == -(SLACK + 10.0))
      && Cover(st, st.terms[PC], map[]) == map[SHARED := 1, HEAVY := 1]
  {
    var st := SlackStore(damp);
    var c: map<Term, nat> := if covered then map[SHARED := 1, HEAVY := 1] else map[];
    GainTwo(st, SHARED, OWN, c);
    GainTwo(st, SHARED, HEAVY, c);
    assert [RIVAL][1..] == [];
    assert Gain(st, [RIVAL], c) == Price(st, RIVAL, Times(c, RIVAL)) + Gain(st, [], c);
    assert [SHARED, HEAVY][1..] == [HEAVY] && [HEAVY][1..] == [];
    assert Cover(st, [HEAVY], map[SHARED := 1]) == map[SHARED := 1, HEAVY := 1];
  }

  function KeyA(damp: nat -> real, k: nat): Entry { Entry(-(SLACK * damp(k) + 1.0), PA) }
  const KEYB := Entry(-(1.0 + 0.8 * SLACK), PB)
  const KEYC := Entry(-(SLACK + 10.0), PC)

  lemma SlackInitial(damp: nat -> real)
    requires damp(0) == 1.0
    ensures Initial(SlackStore(damp)) == {KeyA(damp, 0), KEYB, KEYC}
  {
    SlackKeys(damp, false);
    var st := SlackStore(damp);
    assert st.terms.Keys == {PA, PB, PC};
    forall e ensures e in Initial(st) <==> e in {KeyA(damp, 0), KEYB, KEYC} {
      assert e in Initial(st) <==> exists r :: r in {PA, PB, PC} && e == Entry(FreshKey(st, r, map[]), r);
    }
  }

  /** Both runs begin alike: "c" first, whatever the slack. */
  lemma FirstPick(damp: nat -> real, eps: real)
    requires Damping(damp) && damp(0) == 1.0 && eps >= 0.0
    ensures var st := SlackStore(damp); var heap := {KeyA(damp, 0), KEYB};
      HeapOf(st, heap)
      && Window(st, 2, eps) == [PC] + Lazy(st, heap, map[SHARED := 1, HEAVY := 1], 1, eps)
  {
    var st := SlackStore(damp);
    SlackInitial(damp);
    SlackKeys(damp, false);
    LeastUnique(Initial(st), KEYC, Least(Initial(st)));
    LazyStep(st, Initial(st), map[], [], 2, eps);
    assert Initial(st) - {KEYC} == {KeyA(damp, 0), KEYB};
    assert [] + Window(st, 2, eps) == Window(st, 2, eps);
    assert [] + [PC] == [PC];
  }

  lemma LastPick(st: Store, heap: set<Entry>, c: map<Term, nat>, e: Entry, eps: real)
    requires HeapOf(st, heap) && eps >= 0.0 && IsLeast(heap, e) && FreshKey(st, e.ref, c) <= e.key + eps
    ensures Lazy(st, heap, c, 1, eps) == [e.ref]
  {
    LeastUnique(heap, e, Least(heap));
    LazyStep(st, heap, c, [], 1, eps);
    LazyDone(st, heap - {e}, Cover(st, st.terms[e.ref], c), [e.ref], 0, eps);
    assert [] + Lazy(st, heap, c, 1, eps) == Lazy(st, heap, c, 1, eps);
    assert [] + [e.ref] == [e.ref];
  }

  lemma SlackTakesA(damp: nat -> real)
    requires Damping(damp) && damp(0) == 1.0
    ensures Window(SlackStore(damp), 2, SLACK) == [PC, PA]
  {
    SlackKeys(damp, true);
    FirstPick(damp, SLACK);
    LastPick(SlackStore(damp), {KeyA(damp, 0), KEYB}, map[SHARED := 1, HEAVY := 1], KeyA(damp, 0), SLACK);
  }

  lemma SentBack(st: Store, heap: set<Entry>, c: map<Term, nat>, e: Entry, eps: real)
    requires HeapOf(st, heap) && eps >= 0.0 && IsLeast(heap, e) && FreshKey(st, e.ref, c) > e.key + eps
    ensures HeapOf(st, heap - {e} + {Entry(FreshKey(st, e.ref, c), e.ref)})
    ensures Lazy(st, heap, c, 1, eps) == Lazy(st, heap - {e} + {Entry(FreshKey(st, e.ref, c), e.ref)}, c, 1, eps)
  {
    LeastUnique(heap, e, Least(heap));
    LazyStep(st, heap, c, [], 1, eps);
  }

  lemma ExactSendsABack(damp: nat -> real)
    requires Damping(damp) && damp(0) == 1.0 && damp(1) < 0.8
    ensures var st := SlackStore(damp); var c := map[SHARED := 1, HEAVY := 1];
      HeapOf(st, {KeyA(damp, 0), KEYB}) && HeapOf(st, {KEYB, KeyA(damp, 1)})
      && Lazy(st, {KeyA(damp, 0), KEYB}, c, 1, 0.0) == Lazy(st, {KEYB, KeyA(damp, 1)}, c, 1, 0.0)
  {
    var heap := {KeyA(damp, 0), KEYB};
    SlackKeys(damp, true);
    SentBack(SlackStore(damp), heap, map[SHARED := 1, HEAVY := 1], KeyA(damp, 0), 0.0);
    assert heap - {KeyA(damp, 0)} + {KeyA(damp, 1)} == {KEYB, KeyA(damp, 1)};
  }

  lemma ExactTakesB(damp: nat -> real)
    requires Damping(damp) && damp(0) == 1.0 && damp(1) < 0.8
    ensures Window(SlackStore(damp), 2, 0.0) == [PC, PB]
  {
    FirstPick(damp, 0.0);
    ExactSendsABack(damp);
    SlackKeys(damp, true);
    LastPick(SlackStore(damp), {KEYB, KeyA(damp, 1)}, map[SHARED := 1, HEAVY := 1], KEYB, 0.0);
  }

  /** With the slack the loop takes "a" on its stale key; re-priced exactly, "b" is better. */
  lemma SlackBreaksExactness(damp: nat -> real)
    requires Damping(damp) && damp(0) == 1.0 && damp(1) < 0.8
    ensures WellFormed(SlackStore(damp))
    ensures Window(SlackStore(damp), 2, SLACK) == [PC, PA]
    ensures Eager(SlackStore(damp), [], 2) == [PC, PB]
  {
    SlackTakesA(damp);
    ExactTakesB(damp);
    LazyIsEager(SlackStore(damp), 2, 0.0);
  }
}
