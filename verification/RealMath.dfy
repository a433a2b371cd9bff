// The few facts about products of reals that the analytic proofs use, one at a time.
module RealMath {

  lemma NonNeg(x: real, y: real)
    requires x >= 0.0 && y >= 0.0
    ensures x * y >= 0.0
  {
  }

  lemma Minus(x: real, y: real, z: real)
    ensures x * (y - z) == x * y - x * z
  {
  }

  lemma Plus(x: real, y: real, z: real)
    ensures x * (y + z) == x * y + x * z
  {
  }

  lemma Assoc(x: real, y: real, z: real)
    ensures x * (y * z) == (x * y) * z
  {
  }

  lemma Scale(w: real, x: real, y: real)
    requires w >= 0.0 && 0.0 <= x <= y
    ensures 0.0 <= w * x <= w * y
  {
    NonNeg(w, x);
    NonNeg(w, y - x);
    Minus(w, y, x);
  }

  lemma UnitProduct(q: real, p: real)
    requires 0.0 <= q <= 1.0 && 0.0 <= p <= 1.0
    ensures 0.0 <= q * p <= 1.0
  {
    NonNeg(q, p);
    NonNeg(q, 1.0 - p);
    Minus(q, 1.0, p);
  }

  ghost function Pow(x: real, n: nat): real {
    if n == 0 then 1.0 else x * Pow(x, n - 1)
  }

  lemma {:induction false} PowUnit(q: real, n: nat)
    requires 0.0 <= q <= 1.0
    ensures 0.0 <= Pow(q, n) <= 1.0
  {
    if n != 0 {
      PowUnit(q, n - 1);
      UnitProduct(q, Pow(q, n - 1));
    }
  }

  /** `n` times `g`, by addition. */
  ghost function Steps(n: nat, g: real): real {
    if n == 0 then 0.0 else Steps(n - 1, g) + g
  }

  lemma {:induction false} StepsProduct(n: nat, g: real)
    ensures Steps(n, g) == n as real * g
  {
    if n != 0 {
      StepsProduct(n - 1, g);
      assert n as real == (n - 1) as real + 1.0;
    }
  }

  lemma {:induction false} StepsMonotone(m: nat, n: nat, g: real)
    requires m <= n && g >= 0.0
    ensures Steps(m, g) <= Steps(n, g)
    decreases n
  {
    if m < n {
      StepsMonotone(m, n - 1, g);
    }
  }
}
