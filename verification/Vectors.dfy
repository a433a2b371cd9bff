// Dense vectors of reals: the inner product, its bilinearity, and Cauchy-Schwarz.
module Vectors {
  import opened RealMath

  type Vector = seq<real>

  function Zeros(dim: nat): (r: Vector)
    ensures |r| == dim
  {
    seq(dim, _ => 0.0)
  }

  function Dot(a: Vector, b: Vector): real
    requires |a| == |b|
  {
    if a == [] then 0.0
    else Dot(a[..|a| - 1], b[..|b| - 1]) + a[|a| - 1] * b[|b| - 1]
  }

  /** `[x + c * y for x, y in zip(v, w)]` */
  function AddScaled(v: Vector, c: real, w: Vector): (r: Vector)
    requires |v| == |w|
    ensures |r| == |v|
  {
    seq(|v|, i requires 0 <= i < |v| => v[i] + c * w[i])
  }

  /** `[x / n for x in v]` */
  function Divided(v: Vector, n: real): (r: Vector)
    requires n != 0.0
    ensures |r| == |v|
  {
    seq(|v|, i requires 0 <= i < |v| => v[i] / n)
  }

  lemma {:induction false} DotSymmetric(a: Vector, b: Vector)
    requires |a| == |b|
    ensures Dot(a, b) == Dot(b, a)
  {
    if a != [] {
      DotSymmetric(a[..|a| - 1], b[..|b| - 1]);
    }
  }

  lemma {:induction false} DotZeros(b: Vector)
    ensures Dot(Zeros(|b|), b) == 0.0
  {
    if b != [] {
      assert Zeros(|b|)[..|b| - 1] == Zeros(|b| - 1);
      DotZeros(b[..|b| - 1]);
    }
  }

  lemma AddScaledPrefix(v: Vector, c: real, w: Vector, n: nat)
    requires |v| == |w| && n <= |v|
    ensures AddScaled(v, c, w)[..n] == AddScaled(v[..n], c, w[..n])
  {
    var a, b := AddScaled(v, c, w), AddScaled(v[..n], c, w[..n]);
    forall i | 0 <= i < n ensures a[i] == b[i] {
      assert v[..n][i] == v[i] && w[..n][i] == w[i];
    }
  }

  lemma {:induction false} DotAddScaled(v: Vector, c: real, w: Vector, b: Vector)
    requires |v| == |w| == |b|
    ensures Dot(AddScaled(v, c, w), b) == Dot(v, b) + c * Dot(w, b)
  {
    var n := |v| - 1;
    if v != [] {
      AddScaledPrefix(v, c, w, n);
      DotAddScaled(v[..n], c, w[..n], b[..n]);
      Distribute(v[n], c, w[n], b[n], Dot(w[..n], b[..n]));
    }
  }

  lemma Distribute(v: real, c: real, w: real, b: real, rest: real)
    ensures (v + c * w) * b + c * rest == v * b + c * (rest + w * b)
  {
    Plus(b, v, c * w);
    Plus(c, rest, w * b);
    Assoc(c, w, b);
  }

  lemma {:induction false} DotUpdate(v: Vector, i: nat, x: real, b: Vector)
    requires |v| == |b| && i < |v|
    ensures Dot(v[i := v[i] + x], b) == Dot(v, b) + x * b[i]
  {
    var n := |v| - 1;
    var u := v[i := v[i] + x];
    if i == n {
      assert u[..n] == v[..n];
      Plus(b[i], v[i], x);
    } else {
      assert u[..n] == v[..n][i := v[i] + x];
      DotUpdate(v[..n], i, x, b[..n]);
    }
  }

  lemma QuotientIs(x: real, n: real)
    requires n != 0.0
    ensures x / n == x * (1.0 / n)
  {
    var r, q := 1.0 / n, x / n;
    assert n * r == 1.0 && n * q == x;
    Assoc(q, n, r);
  }

  lemma {:induction false} DotDivided(v: Vector, n: real, b: Vector)
    requires |v| == |b| && n != 0.0
    ensures Dot(Divided(v, n), b) == Dot(v, b) / n
  {
    var k := |v| - 1;
    if v != [] {
      assert Divided(v, n)[..k] == Divided(v[..k], n);
      DotDivided(v[..k], n, b[..k]);
      DividedTerm(v[k], b[k], Dot(v[..k], b[..k]), n);
    }
  }

  lemma DividedTerm(x: real, y: real, rest: real, n: real)
    requires n != 0.0
    ensures rest / n + (x / n) * y == (rest + x * y) / n
  {
    var r := 1.0 / n;
    QuotientIs(rest, n);
    QuotientIs(x, n);
    QuotientIs(rest + x * y, n);
    Plus(r, rest, x * y);
    Assoc(r, x, y);
  }

  lemma {:induction false} SelfDot(v: Vector)
    ensures Dot(v, v) >= 0.0
    ensures Dot(v, v) == 0.0 ==> forall i | 0 <= i < |v| :: v[i] == 0.0
  {
    if v != [] {
      var u, x := v[..|v| - 1], v[|v| - 1];
      SelfDot(u);
      Square(x, Dot(u, u));
      if Dot(v, v) == 0.0 {
        assert forall i | 0 <= i < |u| :: v[i] == u[i];
      }
    }
  }

  lemma Square(x: real, rest: real)
    requires rest >= 0.0
    ensures rest + x * x >= 0.0
    ensures rest + x * x == 0.0 ==> rest == 0.0 && x == 0.0
  {
    if x != 0.0 {
      SquarePositive(x, x * x);
    }
  }

  lemma SquarePositive(x: real, m: real)
    requires x != 0.0 && m == x * x
    ensures m > 0.0
  {
    if x > 0.0 {
      StrictlyPositive(x, x, m);
    } else {
      StrictlyPositive(-x, -x, m);
    }
  }

  lemma {:induction false} DotNothing(a: Vector, b: Vector)
    requires |a| == |b| && forall i | 0 <= i < |b| :: b[i] == 0.0
    ensures Dot(a, b) == 0.0
  {
    if a != [] {
      DotNothing(a[..|a| - 1], b[..|b| - 1]);
    }
  }

  // ---------------------------------------------------------------------------------
  // Combinations of two vectors

  function Combo(c: real, a: Vector, d: real, b: Vector): (r: Vector)
    requires |a| == |b|
    ensures |r| == |a|
  {
    AddScaled(AddScaled(Zeros(|a|), c, a), d, b)
  }

  lemma ComboDot(c: real, a: Vector, d: real, b: Vector, x: Vector)
    requires |a| == |b| == |x|
    ensures Dot(Combo(c, a, d, b), x) == c * Dot(a, x) + d * Dot(b, x)
  {
    DotZeros(x);
    DotAddScaled(Zeros(|a|), c, a, x);
    DotAddScaled(AddScaled(Zeros(|a|), c, a), d, b, x);
  }

  lemma DotCombo(x: Vector, e: real, f: Vector, g: real, h: Vector)
    requires |x| == |f| == |h|
    ensures Dot(x, Combo(e, f, g, h)) == e * Dot(x, f) + g * Dot(x, h)
  {
    hide *;
    ComboDot(e, f, g, h, x);
    DotSymmetric(x, Combo(e, f, g, h));
    DotSymmetric(x, f);
    DotSymmetric(x, h);
  }

  ghost function Times(x: real, y: real): real {
    x * y
  }

  /** `c` parts of `x` to `d` parts of `y`. */
  ghost function Mix(c: real, x: real, d: real, y: real): real {
    c * x + d * y
  }

  /** Two combinations with the same weights, each part orthogonal to the other's other part. */
  lemma ComboOrthogonal(c: real, d: real, a: Vector, b: Vector, f: Vector, h: Vector, p: real, q: real)
    requires |a| == |b| == |f| == |h| && Dot(a, h) == 0.0 && Dot(b, f) == 0.0
    requires p == Times(c, Dot(a, f)) && q == Times(d, Dot(b, h))
    ensures Dot(Combo(c, a, d, b), Combo(c, f, d, h)) == Mix(c, p, d, q)
  {
    hide *;
    var x := Combo(c, f, d, h);
    DotFirst(a, c, f, d, h);
    DotSecond(b, c, f, d, h);
    ComboDotIs(c, a, d, b, x, p, q);
  }

  lemma ComboDotIs(c: real, a: Vector, d: real, b: Vector, x: Vector, p: real, q: real)
    requires |a| == |b| == |x| && Dot(a, x) == p && Dot(b, x) == q
    ensures Dot(Combo(c, a, d, b), x) == Mix(c, p, d, q)
  {
    hide Dot, Combo;
    ComboDot(c, a, d, b, x);
  }

  lemma DotFirst(x: Vector, e: real, f: Vector, g: real, h: Vector)
    requires |x| == |f| == |h| && Dot(x, h) == 0.0
    ensures Dot(x, Combo(e, f, g, h)) == Times(e, Dot(x, f))
  {
    hide *;
    Vanishes(g, Dot(x, h));
    TwoProducts(x, e, f, g, h, Times(e, Dot(x, f)), 0.0);
  }

  lemma DotSecond(x: Vector, e: real, f: Vector, g: real, h: Vector)
    requires |x| == |f| == |h| && Dot(x, f) == 0.0
    ensures Dot(x, Combo(e, f, g, h)) == Times(g, Dot(x, h))
  {
    hide *;
    Vanishes(e, Dot(x, f));
    TwoProducts(x, e, f, g, h, 0.0, Times(g, Dot(x, h)));
  }

  lemma TwoProducts(x: Vector, e: real, f: Vector, g: real, h: Vector, p: real, q: real)
    requires |x| == |f| == |h| && p == Times(e, Dot(x, f)) && q == Times(g, Dot(x, h))
    ensures Dot(x, Combo(e, f, g, h)) == p + q
  {
    hide Dot, Combo;
    DotCombo(x, e, f, g, h);
  }

  lemma Vanishes(c: real, x: real)
    requires x == 0.0
    ensures Times(c, x) == 0.0
  {
  }

  lemma SameProduct(c: real, x: real, y: real)
    requires x == y
    ensures c * x == c * y
  {
  }

  lemma CauchySchwarz(a: Vector, b: Vector)
    requires |a| == |b|
    ensures Dot(a, b) * Dot(a, b) <= Dot(a, a) * Dot(b, b)
  {
    hide *;
    var p, q, r := Dot(a, a), Dot(b, b), Dot(a, b);
    SelfDot(b);
    if q == 0.0 {
      DotNothing(a, b);
    } else {
      var u := Combo(q, a, -r, b);
      SelfDot(u);
      SelfCombo(p, q, a, r, b);
      Discriminant(p, q, r);
    }
  }

  /** The self-product of the combination that makes the inequality. */
  ghost function Scaled(q: real, p: real, r: real): real {
    q * (q * p - r * r)
  }

  lemma SelfCombo(p: real, q: real, a: Vector, r: real, b: Vector)
    requires |a| == |b| && p == Dot(a, a) && q == Dot(b, b) && r == Dot(a, b)
    ensures Dot(Combo(q, a, -r, b), Combo(q, a, -r, b)) == Scaled(q, p, r)
  {
    hide Dot, Combo;
    var u := Combo(q, a, -r, b);
    ComboDot(q, a, -r, b, u);
    DotCombo(a, q, a, -r, b);
    DotCombo(b, q, a, -r, b);
    DotSymmetric(a, b);
    Cancels(q, r);
    assert Dot(b, u) == 0.0;
    NegatedSquare(r);
    SameProduct(q, Dot(a, u), q * p - r * r);
    Vanishes(-r, Dot(b, u));
  }

  lemma Cancels(q: real, r: real)
    ensures q * r + (-r) * q == 0.0
  {
  }

  lemma NegatedSquare(r: real)
    ensures (-r) * r == -(r * r)
  {
  }

  lemma Discriminant(p: real, q: real, r: real)
    requires q > 0.0 && Scaled(q, p, r) >= 0.0
    ensures r * r <= p * q
  {
    var e := q * p - r * r;
    if e < 0.0 {
      StrictlyPositive(q, -e, q * (-e));
      Minus(q, 0.0, -e);
    }
  }

  lemma StrictlyPositive(x: real, y: real, m: real)
    requires x > 0.0 && y > 0.0 && m == x * y
    ensures m > 0.0
  {
  }
}
