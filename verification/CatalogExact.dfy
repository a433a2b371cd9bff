// When the coded slack of scripts/build_demo_deployment.py:711 makes no difference: on every store the
// program can build, short of some 49 million products.
module CatalogExact {
  import opened Prelude
  import opened RealMath
  import opened CatalogWindow
  import opened CatalogPicks
  import opened CatalogSlack
  import opened StoreCatalog

  /** Below this, one more covering of a term moves its price by more than the slack. */
  const EXACT_BELOW: nat := 49_000_000

  lemma ReciprocalDrop(x: real, y: real, d: real, g: real)
    requires 0.0 < x < y <= 7000.0 && d == y - x && d * (y + x) == 1.0 && g == 1.0 / x - 1.0 / y
    ensures WEIGHT_FLOOR * g > SLACK
  {
    Difference(x, y, d, g);
    Scale(x, y, 7000.0);
    Scale(7000.0, x, 7000.0);
    AtLeast(d, y + x, 14000.0, 1.0);
    AtLeast(g, x * y, 49000000.0, d);
    Numbers(d, g);
  }

  lemma AtLeast(u: real, v: real, bound: real, r: real)
    requires u > 0.0 && 0.0 <= v <= bound && u * v == r
    ensures u * bound >= r
  {
    Scale(u, v, bound);
  }

  lemma Numbers(d: real, g: real)
    requires d * 14000.0 >= 1.0 && g * 49000000.0 >= d
    ensures WEIGHT_FLOOR * g > SLACK
  {
  }

  lemma Difference(x: real, y: real, d: real, g: real)
    requires 0.0 < x < y && d == y - x && g == 1.0 / x - 1.0 / y
    ensures g > 0.0 && g * (x * y) == d
  {
    var p, q := 1.0 / x, 1.0 / y;
    assert p * x == 1.0 && q * y == 1.0;
    InverseAntitone(x, y);
    Assoc(p, x, y);
    Assoc(q, y, x);
  }

  /** The step of the square-root damping from `k` to `k + 1` coverings, at the lightest weight there is. */
  lemma DampingDrop(root: nat -> real, k: nat)
    requires IsRootOfSuccessor(root) && k + 2 <= EXACT_BELOW
    ensures WEIGHT_FLOOR * (InverseRoot(root)(k) - InverseRoot(root)(k + 1)) > SLACK
  {
    var x, y := root(k), root(k + 1);
    assert y * y == x * x + 1.0;
    RootMonotone(x, y);
    RootMonotone(y, 7000.0);
    assert (y - x) * (y + x) == y * y - x * x;
    ReciprocalDrop(x, y, y - x, 1.0 / x - 1.0 / y);
  }

  /** A store as the program builds them: its damping, and no weight below the floor of `TermWeights`. */
  ghost predicate Built(st: Store, root: nat -> real) {
    && IsRootOfSuccessor(root) && st.damp == InverseRoot(root)
    && (forall t | t in st.weights :: st.weights[t] >= WEIGHT_FLOOR)
    && (forall r | r in st.terms :: Distinct(st.terms[r]))
  }

  lemma BuiltIsCoarse(st: Store, root: nat -> real)
    requires Built(st, root) && |st.terms| < EXACT_BELOW
    ensures WellFormed(st) && Coarse(st, SLACK)
  {
    SqrtDamping(root);
    forall t, k: nat | t in st.weights && k < |st.terms| ensures DropsBy(st, t, k, SLACK) {
      DampingDrop(root, k);
      Heavier(st.weights[t], st.damp(k), st.damp(k + 1));
    }
  }

  lemma Heavier(w: real, a: real, b: real)
    requires w >= WEIGHT_FLOOR && WEIGHT_FLOOR * (a - b) > SLACK
    ensures w * a - w * b > SLACK
  {
    Minus(w, a, b);
    Minus(WEIGHT_FLOOR, a, b);
    Scale(a - b, WEIGHT_FLOOR, w);
  }

  /**
   * "Exact, not approximate", with the slack as coded: on every store built from titles and vocabularies
   * with fewer than 49 million products, the heap loop returns the quadratic loop's list, for every window.
   */
  lemma BuiltWindowIsExact(titles: map<Ref, string>, weights: map<Term, real>, root: nat -> real, window: int)
    requires IsRootOfSuccessor(root) && |titles| < EXACT_BELOW && forall t | t in weights :: weights[t] >= WEIGHT_FLOOR
    ensures var st := Store(map r | r in titles :: TitleTerms(titles[r]), weights, InverseRoot(root));
      WellFormed(st) && Window(st, window, SLACK) == Eager(st, [], window)
  {
    var st := Store(map r | r in titles :: TitleTerms(titles[r]), weights, InverseRoot(root));
    SqrtDamping(root);
    BuiltStoreWellFormed(titles, weights, InverseRoot(root));
    assert st.terms.Keys == titles.Keys;
    BuiltIsCoarse(st, root);
    hide Coarse, Window, Eager, WellFormed, Built;
    LazyIsEager(st, window, SLACK);
  }

  /** The middle of `_store_catalog`: weigh the host's terms, then order its window. */
  method StoreWindow(stores: map<Host, map<Term, nat>>, host: Host, titles: map<Ref, string>, ln: real -> real,
      root: nat -> real, window: int)
    returns (order: seq<Ref>, st: Store)
    requires host in stores && LogLike(ln) && IsRootOfSuccessor(root)
    ensures st.terms == map r | r in titles :: TitleTerms(titles[r])
    ensures st.weights.Keys == set t | t in stores[host] && stores[host][t] >= MIN_STORE_DOCUMENT_FREQUENCY
    ensures WellFormed(st) && order == Window(st, window, SLACK)
    ensures |titles| < EXACT_BELOW ==> order == Eager(st, [], window) && BestFirst(st, order, window)
  {
    var weights := TermWeights(stores, host, ln);
    var terms := map r | r in titles :: TitleTerms(titles[r]);
    st := Store(terms, weights, InverseRoot(root));
    SqrtDamping(root);
    BuiltStoreWellFormed(titles, weights, InverseRoot(root));
    if |titles| < EXACT_BELOW {
      BuiltWindowIsExact(titles, weights, root, window);
      EagerIsBestFirst(st, window, Eager(st, [], window));
    }
    hide WellFormed, Eager, Lazy, TitleTerms, BestFirst;
    order := WindowOrder(st, window, SLACK);
  }
}
