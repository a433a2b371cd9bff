// proxyshop_support/embedding.py: signed feature hashing, normalisation and the blend of the word bag
// and the trigram bag. SHA-256, the square root and the Unicode folding are parameters (`Library`).
module Embedding {
  import opened Prelude
  import opened RealMath
  import opened Vectors

  const TOKEN_WEIGHT: real := 0.6
  const TRIGRAM_ORDER: nat := 3
  const PAD: string := "\U{0002}"

  datatype Namespace = Word | Gram | Raw

  datatype Feature = Feature(namespace: Namespace, text: string)

  datatype Weighted = Weighted(feature: Feature, weight: real)

  /** What `_bucket` reads of a digest: its first four bytes as a number, and the low bit of the fifth. */
  datatype Digest = Digest(head: nat, odd: bool)

  /** `fold` is `fold_for_lexical(text).split()`: the folded words, repetitions included. */
  datatype Library = Library(digest: Feature -> Digest, sqrt: real -> real, fold: string -> seq<string>)

  predicate IsRoot(s: real, x: real) {
    s >= 0.0 && s * s == x
  }

  /** All that is assumed of `math.sqrt`. */
  ghost predicate Roots(lib: Library) {
    forall x | x >= 0.0 :: IsRoot(lib.sqrt(x), x)
  }

  // ---------------------------------------------------------------------------------
  // Features and buckets

  function Index(lib: Library, f: Feature, dim: nat): (i: nat)
    requires dim > 0
    ensures i < dim
  {
    lib.digest(f).head % dim
  }

  /** Two features collide exactly when the heads of their digests differ by a multiple of the dimension. */
  lemma CollideIff(lib: Library, f: Feature, g: Feature, dim: nat)
    requires dim > 0
    ensures Index(lib, f, dim) == Index(lib, g, dim)
      <==> exists k: int :: lib.digest(f).head - lib.digest(g).head == MultipleOf(dim, k)
  {
    var a: int, b: int := lib.digest(f).head, lib.digest(g).head;
    var r: int, q: int := a / dim, b / dim;
    assert a == MultipleOf(dim, r) + a % dim && b == MultipleOf(dim, q) + b % dim;
    if a % dim == b % dim {
      MultiplesDiffer(dim, r, q);
      assert a - b == MultipleOf(dim, r - q);
    }
    if k: int :| a - b == MultipleOf(dim, k) {
      MultiplesDiffer(dim, r, q);
      OnlyZeroFits(dim, k - (r - q), b % dim - a % dim);
      MultiplesDiffer(dim, k, r - q);
    }
  }

  function MultipleOf(dim: int, k: int): int {
    k * dim
  }

  lemma MultiplesDiffer(dim: int, j: int, k: int)
    ensures MultipleOf(dim, j) - MultipleOf(dim, k) == MultipleOf(dim, j - k)
  {
  }

  lemma OnlyZeroFits(dim: int, k: int, rest: int)
    requires dim > 0 && -dim < rest < dim
    ensures MultipleOf(dim, k) == -rest || MultipleOf(dim, k) == rest ==> rest == 0
  {
    if k >= 1 {
      assert MultipleOf(dim, k) == dim + MultipleOf(dim, k - 1) && (k - 1) * dim >= 0;
    } else if k <= -1 {
      assert MultipleOf(dim, k) == MultipleOf(dim, k + 1) - dim && (k + 1) * dim <= 0;
    }
  }

  function Sign(lib: Library, f: Feature): real {
    if lib.digest(f).odd then 1.0 else -1.0
  }

  function Tokens(lib: Library, text: string): seq<string> {
    Dedup(lib.fold(text))
  }

  function Windows(s: string, order: nat): seq<string>
    requires 0 < order <= |s|
  {
    seq(|s| - order + 1, i requires 0 <= i < |s| - order + 1 => s[i..i + order])
  }

  function TokenTrigrams(token: string): (grams: seq<string>)
    ensures grams != []
  {
    var padded := PAD + PAD + token + PAD + PAD;
    assert Windows(padded, TRIGRAM_ORDER)[0] in Dedup(Windows(padded, TRIGRAM_ORDER));
    Dedup(Windows(padded, TRIGRAM_ORDER))
  }

  function WordFeatures(words: seq<string>): seq<Weighted> {
    seq(|words|, i requires 0 <= i < |words| => Weighted(Feature(Word, words[i]), 1.0))
  }

  lemma RootPositive(lib: Library, x: real)
    requires Roots(lib) && x > 0.0
    ensures lib.sqrt(x) > 0.0
  {
    assert IsRoot(lib.sqrt(x), x);
  }

  /** The trigrams of one word, each scaled by one over the root of their number. */
  function GramsOf(lib: Library, word: string): seq<Weighted>
    requires Roots(lib)
  {
    var grams := TokenTrigrams(word);
    RootPositive(lib, |grams| as real);
    Uniform(grams, 1.0 / lib.sqrt(|grams| as real))
  }

  function Uniform(grams: seq<string>, weight: real): seq<Weighted> {
    seq(|grams|, i requires 0 <= i < |grams| => Weighted(Feature(Gram, grams[i]), weight))
  }

  function GramFeatures(lib: Library, words: seq<string>): seq<Weighted>
    requires Roots(lib)
  {
    if words == [] then [] else GramFeatures(lib, words[..|words| - 1]) + GramsOf(lib, words[|words| - 1])
  }

  // ---------------------------------------------------------------------------------
  // Hashed bags

  /** The dense accumulation of signed weights. */
  function Bag(lib: Library, features: seq<Weighted>, dim: nat): (v: Vector)
    requires dim > 0
    ensures |v| == dim
  {
    if features == [] then Zeros(dim)
    else AddAt(Bag(lib, features[..|features| - 1], dim), lib, features[|features| - 1])
  }

  function AddAt(v: Vector, lib: Library, f: Weighted): (r: Vector)
    requires |v| > 0
    ensures |r| == |v|
  {
    var i := Index(lib, f.feature, |v|);
    v[i := v[i] + Contribution(lib, f)]
  }

  function Contribution(lib: Library, f: Weighted): real {
    Sign(lib, f.feature) * f.weight
  }

  function Norm(lib: Library, v: Vector): real {
    lib.sqrt(Dot(v, v))
  }

  function Normalised(lib: Library, v: Vector): (r: Option<Vector>)
    ensures r.Some? ==> |r.value| == |v|
  {
    if Norm(lib, v) == 0.0 then None else Some(Divided(v, Norm(lib, v)))
  }

  lemma BagStep(lib: Library, features: seq<Weighted>, i: nat, dim: nat)
    requires dim > 0 && i < |features|
    ensures Bag(lib, features[..i + 1], dim) == AddAt(Bag(lib, features[..i], dim), lib, features[i])
  {
    assert features[..i + 1][..i] == features[..i];
  }

  /** The accumulation loop of `_hashed_bag`, over a dense buffer. */
  method Accumulate(lib: Library, features: seq<Weighted>, dim: nat) returns (v: Vector)
    requires dim > 0
    ensures v == Bag(lib, features, dim)
  {
    var dense := new real[dim](_ => 0.0);
    assert dense[..] == Zeros(dim) == Bag(lib, features[..0], dim);
    hide Bag, Contribution, Index;
    for i := 0 to |features|
      invariant dense[..] == Bag(lib, features[..i], dim)
    {
      ghost var was := dense[..];
      var index := Index(lib, features[i].feature, dim);
      dense[index] := dense[index] + Contribution(lib, features[i]);
      assert dense[..] == AddAt(was, lib, features[i]);
      BagStep(lib, features, i, dim);
    }
    assert features[..|features|] == features;
    return dense[..];
  }

  method HashedBag(lib: Library, features: seq<Weighted>, dim: nat) returns (r: Option<Vector>)
    requires dim > 0
    ensures r == Normalised(lib, Bag(lib, features, dim))
  {
    var dense := Accumulate(lib, features, dim);
    var norm := Norm(lib, dense);
    return if norm == 0.0 then None else Some(Divided(dense, norm));
  }

  // ---------------------------------------------------------------------------------
  // The embedding

  datatype Error = BadDim | DimensionMismatch

  function Blend(lib: Library, dim: nat, words: Option<Vector>, grams: Option<Vector>): (v: Vector)
    requires (words.Some? ==> |words.value| == dim) && (grams.Some? ==> |grams.value| == dim)
    ensures |v| == dim
  {
    var v := if words.Some? then AddScaled(Zeros(dim), lib.sqrt(TOKEN_WEIGHT), words.value) else Zeros(dim);
    if grams.Some? then AddScaled(v, lib.sqrt(1.0 - TOKEN_WEIGHT), grams.value) else v
  }

  function Finished(lib: Library, v: Vector): (r: Vector)
    requires |v| > 0
    ensures |r| == |v|
  {
    if Norm(lib, v) == 0.0 then v[0 := 1.0] else Divided(v, Norm(lib, v))
  }

  function RawUnit(lib: Library, text: string, dim: nat): (r: Vector)
    requires dim > 0
    ensures |r| == dim
  {
    Zeros(dim)[Index(lib, Feature(Raw, text), dim) := Sign(lib, Feature(Raw, text))]
  }

  function Embed(lib: Library, text: string, dim: int): (r: Result<Vector, Error>)
    requires Roots(lib)
    ensures r.Ok? ==> |r.value| == dim
  {
    if dim <= 0 then Err(BadDim)
    else if text == "" then Ok(Zeros(dim))
    else
      var words := Tokens(lib, text);
      if words == [] then Ok(RawUnit(lib, text, dim))
      else Ok(Finished(lib, Blend(lib, dim,
        Normalised(lib, Bag(lib, WordFeatures(words), dim)),
        Normalised(lib, Bag(lib, GramFeatures(lib, words), dim)))))
  }

  method LexicalEmbed(lib: Library, text: string, dim: int) returns (r: Result<Vector, Error>)
    requires Roots(lib)
    ensures r == Embed(lib, text, dim)
  {
    if dim <= 0 {
      return Err(BadDim);
    }
    if text == "" {
      return Ok(Zeros(dim));
    }
    var words := Tokens(lib, text);
    if words == [] {
      var vector := Zeros(dim);
      var f := Feature(Raw, text);
      vector := vector[Index(lib, f, dim) := Sign(lib, f)];
      return Ok(vector);
    }
    var grams: seq<Weighted> := [];
    for i := 0 to |words|
      invariant grams == GramFeatures(lib, words[..i])
    {
      grams := grams + GramsOf(lib, words[i]);
      assert words[..i + 1][..i] == words[..i];
    }
    assert words[..|words|] == words;
    var wordBag := HashedBag(lib, WordFeatures(words), dim);
    var gramBag := HashedBag(lib, grams, dim);
    var vector := Zeros(dim);
    if wordBag.Some? {
      vector := AddScaled(vector, lib.sqrt(TOKEN_WEIGHT), wordBag.value);
    }
    if gramBag.Some? {
      vector := AddScaled(vector, lib.sqrt(1.0 - TOKEN_WEIGHT), gramBag.value);
    }
    var norm := Norm(lib, vector);
    if norm == 0.0 {
      return Ok(vector[0 := 1.0]);
    }
    return Ok(Divided(vector, norm));
  }

  function Cosine(lib: Library, a: Vector, b: Vector): Result<real, Error>
    requires Roots(lib)
  {
    if |a| != |b| then Err(DimensionMismatch)
    else if Norm(lib, a) == 0.0 || Norm(lib, b) == 0.0 then Ok(0.0)
    else
      NormIs(lib, a);
      NormIs(lib, b);
      Ok(Ratio(Dot(a, b), Norm(lib, a), Norm(lib, b)))
  }

  function Ratio(d: real, m: real, n: real): real
    requires m > 0.0 && n > 0.0
  {
    StrictlyPositive(m, n, m * n);
    d / (m * n)
  }

  lemma NormIs(lib: Library, v: Vector)
    requires Roots(lib)
    ensures IsRoot(Norm(lib, v), Dot(v, v))
  {
    SelfDot(v);
  }

  // ---------------------------------------------------------------------------------
  // Norms

  /** What a vector divided by its own norm is. */
  lemma DividedUnit(lib: Library, v: Vector)
    requires Roots(lib) && Norm(lib, v) != 0.0
    ensures Dot(Divided(v, Norm(lib, v)), Divided(v, Norm(lib, v))) == 1.0
  {
    var n := Norm(lib, v);
    NormIs(lib, v);
    DividedDot(v, n, v, n);
    OwnRatio(Dot(v, v), n);
  }

  lemma OwnRatio(x: real, n: real)
    requires n > 0.0 && x == n * n
    ensures Ratio(x, n, n) == 1.0
  {
    StrictlyPositive(n, n, x);
    Itself(x, n * n);
  }

  lemma Itself(x: real, y: real)
    requires x > 0.0 && x == y
    ensures x / y == 1.0
  {
  }

  lemma DividedDot(a: Vector, m: real, b: Vector, n: real)
    requires |a| == |b| && m > 0.0 && n > 0.0
    ensures Dot(Divided(a, m), Divided(b, n)) == Ratio(Dot(a, b), m, n)
  {
    DotDivided(a, m, Divided(b, n));
    DotSymmetric(a, Divided(b, n));
    DotDivided(b, n, a);
    DotSymmetric(a, b);
    hide Dot, Divided;
    RatioTwice(Dot(a, b), m, n);
  }

  lemma RatioTwice(x: real, m: real, n: real)
    requires m > 0.0 && n > 0.0
    ensures (x / n) / m == Ratio(x, m, n)
  {
    StrictlyPositive(m, n, m * n);
  }

  lemma SquareLeq(d: real, x: real)
    requires x >= 0.0 && d * d <= x * x
    ensures -x <= d <= x
  {
    if d > x {
      StrictlyPositive(d - x, d + x, (d - x) * (d + x));
    } else if -d > x {
      StrictlyPositive(-d - x, -d + x, (-d - x) * (-d + x));
    }
  }

  lemma RootOne(lib: Library)
    requires Roots(lib)
    ensures lib.sqrt(1.0) == 1.0 && lib.sqrt(0.0) == 0.0
  {
    assert IsRoot(lib.sqrt(1.0), 1.0) && IsRoot(lib.sqrt(0.0), 0.0);
    SquareLeq(lib.sqrt(1.0), 1.0);
    SquareLeq(1.0, lib.sqrt(1.0));
    SquareLeq(lib.sqrt(0.0), 0.0);
  }

  lemma DotUnitAt(dim: nat, i: nat, x: real)
    requires i < dim
    ensures Dot(Zeros(dim)[i := x], Zeros(dim)[i := x]) == x * x
  {
    var u := Zeros(dim)[i := x];
    assert u == Zeros(dim)[i := Zeros(dim)[i] + x];
    DotUpdate(Zeros(dim), i, x, u);
    DotZeros(u);
  }

  lemma FinishedUnit(lib: Library, v: Vector)
    requires Roots(lib) && v != []
    ensures Dot(Finished(lib, v), Finished(lib, v)) == 1.0
  {
    if Norm(lib, v) == 0.0 {
      NormIs(lib, v);
      SelfDot(v);
      assert v == Zeros(|v|);
      DotUnitAt(|v|, 0, 1.0);
    } else {
      DividedUnit(lib, v);
    }
  }

  /**
   * Every non-empty text embeds to a vector of norm exactly one: whether or not it folds away, and
   * even when every feature cancels against a collision. The empty text alone embeds to the zero vector.
   */
  lemma UnitNorm(lib: Library, text: string, dim: int)
    requires Roots(lib)
    ensures Embed(lib, text, dim).Ok? <==> dim > 0
    ensures dim > 0 && text != "" ==> Norm(lib, Embed(lib, text, dim).value) == 1.0
    ensures dim > 0 && text == "" ==> Norm(lib, Embed(lib, text, dim).value) == 0.0
  {
    if dim > 0 {
      if text == "" {
        DotZeros(Zeros(dim));
        RootOne(lib);
      } else {
        RootOne(lib);
        var words := Tokens(lib, text);
        if words == [] {
          DotUnitAt(dim, Index(lib, Feature(Raw, text), dim), Sign(lib, Feature(Raw, text)));
        } else {
          FinishedUnit(lib, Blend(lib, dim,
            Normalised(lib, Bag(lib, WordFeatures(words), dim)),
            Normalised(lib, Bag(lib, GramFeatures(lib, words), dim))));
        }
      }
    }
  }

  // ---------------------------------------------------------------------------------
  // The cosine

  /**
   * Symmetric, within [-1, 1], and the plain inner product on unit vectors; an error exactly on a dimension
   * mismatch.
   */
  lemma CosineLaws(lib: Library, a: Vector, b: Vector)
    requires Roots(lib)
    ensures Cosine(lib, a, b).Ok? <==> |a| == |b|
    ensures Cosine(lib, a, b) == Cosine(lib, b, a)
    ensures Cosine(lib, a, b).Ok? ==> -1.0 <= Cosine(lib, a, b).value <= 1.0
    ensures |a| == |b| && Norm(lib, a) == 1.0 && Norm(lib, b) == 1.0 ==> Cosine(lib, a, b) == Ok(Dot(a, b))
  {
    if |a| == |b| && Norm(lib, a) != 0.0 && Norm(lib, b) != 0.0 {
      CosineRatio(lib, a, b);
      assert Cosine(lib, a, b) == Ok(Ratio(Dot(a, b), Norm(lib, a), Norm(lib, b)));
      assert Cosine(lib, b, a) == Ok(Ratio(Dot(a, b), Norm(lib, b), Norm(lib, a)));
      hide *;
    }
  }

  lemma CosineRatio(lib: Library, a: Vector, b: Vector)
    requires Roots(lib) && |a| == |b| && Norm(lib, a) != 0.0 && Norm(lib, b) != 0.0
    ensures Norm(lib, a) > 0.0 && Norm(lib, b) > 0.0 && Dot(b, a) == Dot(a, b)
    ensures -1.0 <= Ratio(Dot(a, b), Norm(lib, a), Norm(lib, b)) <= 1.0
    ensures Ratio(Dot(a, b), Norm(lib, a), Norm(lib, b)) == Ratio(Dot(a, b), Norm(lib, b), Norm(lib, a))
    ensures Norm(lib, a) == 1.0 && Norm(lib, b) == 1.0 ==> Ratio(Dot(a, b), Norm(lib, a), Norm(lib, b)) == Dot(a, b)
  {
    hide *;
    NormIs(lib, a);
    NormIs(lib, b);
    RootSign(Norm(lib, a), Dot(a, a));
    RootSign(Norm(lib, b), Dot(b, b));
    SquareBelow(a, b);
    DotSymmetric(a, b);
    RatioBounds(Dot(a, b), Norm(lib, a), Norm(lib, b), Dot(a, a), Dot(b, b));
  }

  lemma RootSign(s: real, x: real)
    requires IsRoot(s, x) && s != 0.0
    ensures s > 0.0
  {
  }

  predicate Below(d: real, p: real, q: real) {
    d * d <= p * q
  }

  lemma SquareBelow(a: Vector, b: Vector)
    requires |a| == |b|
    ensures Below(Dot(a, b), Dot(a, a), Dot(b, b))
  {
    CauchySchwarz(a, b);
  }

  lemma RatioBounds(d: real, m: real, n: real, p: real, q: real)
    requires m > 0.0 && n > 0.0 && IsRoot(m, p) && IsRoot(n, q) && Below(d, p, q)
    ensures -1.0 <= Ratio(d, m, n) <= 1.0
    ensures Ratio(d, m, n) == Ratio(d, n, m)
    ensures m == 1.0 && n == 1.0 ==> Ratio(d, m, n) == d
  {
    var x := m * n;
    StrictlyPositive(m, n, x);
    ProductOfSquares(m, n, p, q, x);
    SquareLeq(d, x);
    WithinUnit(d, x);
  }

  lemma ProductOfSquares(m: real, n: real, p: real, q: real, x: real)
    requires p == m * m && q == n * n && x == m * n
    ensures p * q == x * x
  {
    Assoc(m, m, q);
    Assoc(m, n, n);
    Assoc(x, m, n);
    Assoc(m, x, n);
  }

  lemma WithinUnit(d: real, x: real)
    requires x > 0.0 && -x <= d <= x
    ensures -1.0 <= d / x <= 1.0
  {
    var q := d / x;
    assert q * x == d;
    if q > 1.0 {
      StrictlyPositive(q - 1.0, x, (q - 1.0) * x);
    } else if q < -1.0 {
      StrictlyPositive(-1.0 - q, x, (-1.0 - q) * x);
    }
  }

  /** A vector that is not zero is as similar to itself as anything can be. */
  lemma CosineSelf(lib: Library, a: Vector)
    requires Roots(lib) && Norm(lib, a) != 0.0
    ensures Cosine(lib, a, a) == Ok(1.0)
  {
    NormIs(lib, a);
    OwnRatio(Dot(a, a), Norm(lib, a));
  }

  // ---------------------------------------------------------------------------------
  // Bags of features before hashing: what the hashed vectors stand for

  /** The total weight a bag gives one feature. */
  ghost function WeightOf(bag: seq<Weighted>, f: Feature): real {
    if bag == [] then 0.0
    else WeightOf(bag[..|bag| - 1], f) + if bag[|bag| - 1].feature == f then bag[|bag| - 1].weight else 0.0
  }

  /** The inner product of two bags, feature by feature. */
  ghost function Inner(a: seq<Weighted>, b: seq<Weighted>): real {
    if a == [] then 0.0
    else Inner(a[..|a| - 1], b) + Times(a[|a| - 1].weight, WeightOf(b, a[|a| - 1].feature))
  }

  /** No two different features of these bags share a bucket. */
  ghost predicate Apart(lib: Library, dim: nat, a: seq<Weighted>, b: seq<Weighted>)
    requires dim > 0
  {
    forall v, w | v in a && w in b :: Index(lib, v.feature, dim) == Index(lib, w.feature, dim) ==>
      v.feature == w.feature
  }

  ghost predicate Owns(lib: Library, dim: nat, f: Feature, b: seq<Weighted>)
    requires dim > 0
  {
    forall w | w in b :: Index(lib, f, dim) == Index(lib, w.feature, dim) ==> f == w.feature
  }

  ghost function Signed(lib: Library, f: Feature, x: real): real {
    if lib.digest(f).odd then x else -x
  }

  /** Where a feature has its bucket to itself, the component is its signed weight. */
  lemma {:induction false} ComponentIs(lib: Library, dim: nat, f: Feature, b: seq<Weighted>)
    requires dim > 0 && Owns(lib, dim, f, b)
    ensures Bag(lib, b, dim)[Index(lib, f, dim)] == Signed(lib, f, WeightOf(b, f))
  {
    if b != [] {
      var c, w := b[..|b| - 1], b[|b| - 1];
      assert forall v | v in c :: v in b;
      assert w in b;
      ComponentIs(lib, dim, f, c);
    }
  }

  lemma AddAtDot(u: Vector, lib: Library, w: Weighted, v: Vector, y: real)
    requires |u| == |v| > 0 && v[Index(lib, w.feature, |v|)] == Signed(lib, w.feature, y)
    ensures Dot(AddAt(u, lib, w), v) == Dot(u, v) + Times(w.weight, y)
  {
    var i, x := Index(lib, w.feature, |v|), Signed(lib, w.feature, w.weight);
    assert AddAt(u, lib, w) == u[i := u[i] + x];
    hide *;
    SignsCancel(lib, w.feature, w.weight, y, Times(w.weight, y));
    UpdateBy(u, i, x, v, Times(w.weight, y));
  }

  lemma UpdateBy(v: Vector, i: nat, x: real, b: Vector, d: real)
    requires |v| == |b| && i < |v| && d == x * b[i]
    ensures Dot(v[i := v[i] + x], b) == Dot(v, b) + d
  {
    DotUpdate(v, i, x, b);
  }

  lemma SignsCancel(lib: Library, f: Feature, x: real, y: real, d: real)
    requires d == Times(x, y)
    ensures Signed(lib, f, x) * Signed(lib, f, y) == d
  {
  }

  lemma IsometricStep(lib: Library, a: seq<Weighted>, b: seq<Weighted>, u: Vector, v: Vector)
    requires |u| == |v| > 0 && a != [] && Dot(u, v) == Inner(a[..|a| - 1], b)
    requires var w := a[|a| - 1];
      v[Index(lib, w.feature, |v|)] == Signed(lib, w.feature, WeightOf(b, w.feature))
    ensures Dot(AddAt(u, lib, a[|a| - 1]), v) == Inner(a, b)
  {
    hide Times, WeightOf, Dot, AddAt, Signed, Index;
    AddAtDot(u, lib, a[|a| - 1], v, WeightOf(b, a[|a| - 1].feature));
  }

  /** Hashing keeps inner products when nothing collides. */
  lemma {:induction false} HashingIsIsometric(lib: Library, dim: nat, a: seq<Weighted>, b: seq<Weighted>)
    requires dim > 0 && Apart(lib, dim, a, b)
    ensures Dot(Bag(lib, a, dim), Bag(lib, b, dim)) == Inner(a, b)
  {
    var v := Bag(lib, b, dim);
    if a == [] {
      DotZeros(v);
    } else {
      var c, w := a[..|a| - 1], a[|a| - 1];
      assert w in a && forall u | u in c :: u in a;
      assert Apart(lib, dim, c, b) && Owns(lib, dim, w.feature, b);
      assert Bag(lib, a, dim) == AddAt(Bag(lib, c, dim), lib, w);
      hide *;
      HashingIsIsometric(lib, dim, c, b);
      ComponentIs(lib, dim, w.feature, b);
      IsometricStep(lib, a, b, Bag(lib, c, dim), v);
    }
  }

  /** Bags over different namespaces have nothing in common. */
  lemma {:induction false} NothingShared(a: seq<Weighted>, b: seq<Weighted>)
    requires forall v, w | v in a && w in b :: v.feature != w.feature
    ensures Inner(a, b) == 0.0
  {
    if a != [] {
      NothingShared(a[..|a| - 1], b);
      NoWeight(b, a[|a| - 1].feature);
    }
  }

  lemma {:induction false} NoWeight(b: seq<Weighted>, f: Feature)
    requires forall w | w in b :: w.feature != f
    ensures WeightOf(b, f) == 0.0
  {
    if b != [] {
      NoWeight(b[..|b| - 1], f);
    }
  }

  ghost predicate Positive(a: seq<Weighted>) {
    forall w | w in a :: w.weight > 0.0
  }

  lemma {:induction false} WeightPositive(b: seq<Weighted>, f: Feature)
    requires Positive(b)
    ensures WeightOf(b, f) >= 0.0
    ensures (exists w | w in b :: w.feature == f) ==> WeightOf(b, f) > 0.0
  {
    if b != [] {
      var c := b[..|b| - 1];
      assert b[|b| - 1] in b && forall w | w in b :: w in c || w == b[|b| - 1];
      WeightPositive(c, f);
    }
  }

  lemma {:induction false} InnerPositive(a: seq<Weighted>, b: seq<Weighted>)
    requires Positive(a) && Positive(b)
    ensures Inner(a, b) >= 0.0
    ensures a != [] && a[|a| - 1] in b ==> Inner(a, b) > 0.0
  {
    if a != [] {
      var w := a[|a| - 1];
      assert w in a;
      InnerPositive(a[..|a| - 1], b);
      WeightPositive(b, w.feature);
      NonNeg(w.weight, WeightOf(b, w.feature));
      if w in b {
        StrictlyPositive(w.weight, WeightOf(b, w.feature), w.weight * WeightOf(b, w.feature));
      }
    }
  }

  // ---------------------------------------------------------------------------------
  // The blend

  /** The cosine of two bags, before any hashing. */
  ghost function Agreement(lib: Library, a: seq<Weighted>, b: seq<Weighted>): real
    requires Roots(lib) && Positive(a) && Positive(b) && a != [] && b != []
  {
    InnerPositive(a, a);
    InnerPositive(b, b);
    RootPositive(lib, Inner(a, a));
    RootPositive(lib, Inner(b, b));
    Ratio(Inner(a, b), lib.sqrt(Inner(a, a)), lib.sqrt(Inner(b, b)))
  }

  /** A bag alone in its buckets does not cancel, and its hashed unit vectors have the bags' own cosine. */
  lemma UnitDot(lib: Library, dim: nat, a: seq<Weighted>, b: seq<Weighted>)
    requires Roots(lib) && dim > 0 && Positive(a) && Positive(b) && a != [] && b != []
    requires Apart(lib, dim, a, a) && Apart(lib, dim, b, b) && Apart(lib, dim, a, b)
    ensures var u, v := Normalised(lib, Bag(lib, a, dim)), Normalised(lib, Bag(lib, b, dim));
      u.Some? && v.Some? && Dot(u.value, v.value) == Agreement(lib, a, b)
  {
    InnerPositive(a, a);
    InnerPositive(b, b);
    RootPositive(lib, Inner(a, a));
    RootPositive(lib, Inner(b, b));
    HashingIsIsometric(lib, dim, a, a);
    HashingIsIsometric(lib, dim, b, b);
    HashingIsIsometric(lib, dim, a, b);
    hide Bag, Inner, Dot, Apart, Positive, Ratio, Divided;
    DividedDot(Bag(lib, a, dim), Norm(lib, Bag(lib, a, dim)), Bag(lib, b, dim), Norm(lib, Bag(lib, b, dim)));
  }

  lemma OwnAgreement(lib: Library, a: seq<Weighted>)
    requires Roots(lib) && Positive(a) && a != []
    ensures Agreement(lib, a, a) == 1.0
  {
    InnerPositive(a, a);
    RootPositive(lib, Inner(a, a));
    assert IsRoot(lib.sqrt(Inner(a, a)), Inner(a, a));
    hide Inner, Positive, Ratio;
    OwnRatio(Inner(a, a), lib.sqrt(Inner(a, a)));
  }

  /** Bags from different namespaces hash to orthogonal unit vectors when nothing collides. */
  lemma UnitsOrthogonal(lib: Library, dim: nat, a: seq<Weighted>, b: seq<Weighted>)
    requires Roots(lib) && dim > 0 && Positive(a) && Positive(b) && a != [] && b != []
    requires Apart(lib, dim, a, a) && Apart(lib, dim, b, b) && Apart(lib, dim, a, b)
    requires forall v, w | v in a && w in b :: v.feature != w.feature
    ensures var u, v := Normalised(lib, Bag(lib, a, dim)), Normalised(lib, Bag(lib, b, dim));
      u.Some? && v.Some? && Dot(u.value, v.value) == 0.0 && Dot(v.value, u.value) == 0.0
  {
    UnitDot(lib, dim, a, b);
    DotSymmetric(Normalised(lib, Bag(lib, a, dim)).value, Normalised(lib, Bag(lib, b, dim)).value);
    NothingShared(a, b);
    InnerPositive(a, a);
    InnerPositive(b, b);
    RootPositive(lib, Inner(a, a));
    RootPositive(lib, Inner(b, b));
    ZeroRatio(lib.sqrt(Inner(a, a)), lib.sqrt(Inner(b, b)));
    hide Inner, Positive, Normalised, Bag, Dot, Ratio;
  }

  lemma ZeroRatio(m: real, n: real)
    requires m > 0.0 && n > 0.0
    ensures Ratio(0.0, m, n) == 0.0
  {
    StrictlyPositive(m, n, m * n);
  }

  lemma RootsMix(lib: Library, c: real, d: real, x: real, y: real)
    requires Roots(lib) && c >= 0.0 && d >= 0.0
    ensures Mix(lib.sqrt(c), Times(lib.sqrt(c), x), lib.sqrt(d), Times(lib.sqrt(d), y)) == Mix(c, x, d, y)
  {
    assert IsRoot(lib.sqrt(c), c) && IsRoot(lib.sqrt(d), d);
    Assoc(lib.sqrt(c), lib.sqrt(c), x);
    Assoc(lib.sqrt(d), lib.sqrt(d), y);
  }

  /** Two blends whose word and trigram parts are orthogonal across: 0.6 of the one product and 0.4 of the other. */
  lemma BlendDot(lib: Library, a: Vector, b: Vector, f: Vector, h: Vector)
    requires Roots(lib) && |a| == |b| == |f| == |h| && Dot(a, h) == 0.0 && Dot(b, f) == 0.0
    ensures Dot(Blend(lib, |a|, Some(a), Some(b)), Blend(lib, |a|, Some(f), Some(h)))
         == Mix(TOKEN_WEIGHT, Dot(a, f), 1.0 - TOKEN_WEIGHT, Dot(b, h))
  {
    var s, t := lib.sqrt(TOKEN_WEIGHT), lib.sqrt(1.0 - TOKEN_WEIGHT);
    assert Blend(lib, |a|, Some(a), Some(b)) == Combo(s, a, t, b);
    assert Blend(lib, |a|, Some(f), Some(h)) == Combo(s, f, t, h);
    hide *;
    ComboOrthogonal(s, t, a, b, f, h, Times(s, Dot(a, f)), Times(t, Dot(b, h)));
    RootsMix(lib, TOKEN_WEIGHT, 1.0 - TOKEN_WEIGHT, Dot(a, f), Dot(b, h));
  }

  /** What every bag of one namespace is: features of that namespace, positively weighted. */
  ghost predicate BagOf(n: Namespace, a: seq<Weighted>) {
    a != [] && forall w | w in a :: w.feature.namespace == n && w.weight > 0.0
  }

  lemma {:induction false} GramBag(lib: Library, words: seq<string>)
    requires Roots(lib) && words != []
    ensures BagOf(Gram, GramFeatures(lib, words))
  {
    var rest, last := words[..|words| - 1], words[|words| - 1];
    if rest != [] {
      GramBag(lib, rest);
    } else {
      assert GramFeatures(lib, rest) == [];
    }
    RootPositive(lib, |TokenTrigrams(last)| as real);
    PositiveInverse(lib.sqrt(|TokenTrigrams(last)| as real));
    assert BagOf(Gram, GramsOf(lib, last));
    assert GramFeatures(lib, words) == GramFeatures(lib, rest) + GramsOf(lib, last);
  }

  lemma PositiveInverse(x: real)
    requires x > 0.0
    ensures 1.0 / x > 0.0
  {
  }

  function TextFeatures(lib: Library, text: string): seq<Weighted>
    requires Roots(lib)
  {
    WordFeatures(Tokens(lib, text)) + GramFeatures(lib, Tokens(lib, text))
  }

  /** Two bags of features, words against trigrams, none of which collide. */
  ghost predicate Clean(lib: Library, dim: nat, w: seq<Weighted>, g: seq<Weighted>)
    requires dim > 0
  {
    BagOf(Word, w) && BagOf(Gram, g) && Apart(lib, dim, w + g, w + g)
  }

  lemma CleanParts(lib: Library, dim: nat, w: seq<Weighted>, g: seq<Weighted>)
    requires dim > 0 && Clean(lib, dim, w, g)
    ensures Positive(w) && Positive(g) && w != [] && g != []
    ensures Apart(lib, dim, w, w) && Apart(lib, dim, g, g) && Apart(lib, dim, w, g)
    ensures forall u, v | u in w && v in g :: u.feature != v.feature
  {
    assert forall u | u in w :: u in w + g;
    assert forall u | u in g :: u in w + g;
  }

  ghost function Blended(lib: Library, dim: nat, w: seq<Weighted>, g: seq<Weighted>): Vector
    requires dim > 0
  {
    Blend(lib, dim, Normalised(lib, Bag(lib, w, dim)), Normalised(lib, Bag(lib, g, dim)))
  }

  /** The inner product of two blends, none of whose features collide. */
  lemma BlendedDot(lib: Library, dim: nat, w: seq<Weighted>, g: seq<Weighted>, x: seq<Weighted>, h: seq<Weighted>)
    requires Roots(lib) && dim > 0 && Clean(lib, dim, w, g) && Clean(lib, dim, x, h)
    requires Apart(lib, dim, w, x) && Apart(lib, dim, g, h) && Apart(lib, dim, w, h) && Apart(lib, dim, g, x)
    ensures Positive(w) && Positive(g) && w != [] && g != [] && Positive(x) && Positive(h) && x != [] && h != []
    ensures Dot(Blended(lib, dim, w, g), Blended(lib, dim, x, h))
         == Mix(TOKEN_WEIGHT, Agreement(lib, w, x), 1.0 - TOKEN_WEIGHT, Agreement(lib, g, h))
  {
    CleanParts(lib, dim, w, g);
    CleanParts(lib, dim, x, h);
    assert forall u, v | u in w && v in h :: u.feature != v.feature;
    assert forall u, v | u in g && v in x :: u.feature != v.feature;
    hide *;
    UnitDot(lib, dim, w, x);
    UnitDot(lib, dim, g, h);
    UnitsOrthogonal(lib, dim, w, h);
    UnitsOrthogonal(lib, dim, g, x);
    var a, b := Normalised(lib, Bag(lib, w, dim)).value, Normalised(lib, Bag(lib, g, dim)).value;
    var c, d := Normalised(lib, Bag(lib, x, dim)).value, Normalised(lib, Bag(lib, h, dim)).value;
    BlendedIs(lib, dim, w, g, a, b);
    BlendedIs(lib, dim, x, h, c, d);
    BlendDot(lib, a, b, c, d);
  }

  lemma BlendedIs(lib: Library, dim: nat, w: seq<Weighted>, g: seq<Weighted>, a: Vector, b: Vector)
    requires dim > 0 && Normalised(lib, Bag(lib, w, dim)) == Some(a) && Normalised(lib, Bag(lib, g, dim)) == Some(b)
    ensures |a| == |b| == dim && Blended(lib, dim, w, g) == Blend(lib, |a|, Some(a), Some(b))
  {
  }

  /** Without collisions the blend already has norm one, so the last normalisation leaves it as it is. */
  lemma BlendedUnit(lib: Library, dim: nat, w: seq<Weighted>, g: seq<Weighted>)
    requires Roots(lib) && dim > 0 && Clean(lib, dim, w, g)
    ensures Norm(lib, Blended(lib, dim, w, g)) == 1.0
    ensures Finished(lib, Blended(lib, dim, w, g)) == Blended(lib, dim, w, g)
  {
    CleanParts(lib, dim, w, g);
    assert Apart(lib, dim, g, w);
    hide Clean, Apart, Bag, Dot, Positive, Inner, Agreement;
    BlendedDot(lib, dim, w, g, w, g);
    OwnAgreement(lib, w);
    OwnAgreement(lib, g);
    RootOne(lib);
    DividedByOne(Blended(lib, dim, w, g));
  }

  lemma DividedByOne(v: Vector)
    ensures Divided(v, 1.0) == v
  {
  }

  /** None of the features of the two texts share a bucket. */
  ghost predicate CollisionFree(lib: Library, dim: nat, a: string, b: string)
    requires Roots(lib) && dim > 0
  {
    var all := TextFeatures(lib, a) + TextFeatures(lib, b);
    Apart(lib, dim, all, all)
  }

  lemma TextsClean(lib: Library, dim: nat, a: string, b: string)
    requires Roots(lib) && dim > 0 && CollisionFree(lib, dim, a, b) && Tokens(lib, a) != [] && Tokens(lib, b) != []
    ensures var w, x := WordFeatures(Tokens(lib, a)), WordFeatures(Tokens(lib, b));
      var g, h := GramFeatures(lib, Tokens(lib, a)), GramFeatures(lib, Tokens(lib, b));
      && Clean(lib, dim, w, g) && Clean(lib, dim, x, h)
      && Apart(lib, dim, w, x) && Apart(lib, dim, g, h) && Apart(lib, dim, w, h) && Apart(lib, dim, g, x)
  {
    GramBag(lib, Tokens(lib, a));
    GramBag(lib, Tokens(lib, b));
    assert BagOf(Word, WordFeatures(Tokens(lib, a))) && BagOf(Word, WordFeatures(Tokens(lib, b)));
    var all := TextFeatures(lib, a) + TextFeatures(lib, b);
    assert forall u | u in TextFeatures(lib, a) :: u in all;
    assert forall u | u in TextFeatures(lib, b) :: u in all;
  }

  /**
   * The docstring's blend, exactly: for two texts that each keep a word and whose features do not
   * collide, the cosine of the embeddings is 0.6 of the word bags' cosine plus 0.4 of the weighted
   * trigram bags' cosine, and each embedding is its blend, unchanged by the last normalisation.
   */
  lemma ExactBlend(lib: Library, dim: nat, a: string, b: string)
    requires Roots(lib) && dim > 0 && a != "" && b != "" && Tokens(lib, a) != [] && Tokens(lib, b) != []
    requires CollisionFree(lib, dim, a, b)
    ensures var w, x := WordFeatures(Tokens(lib, a)), WordFeatures(Tokens(lib, b));
      var g, h := GramFeatures(lib, Tokens(lib, a)), GramFeatures(lib, Tokens(lib, b));
      && Positive(w) && Positive(x) && Positive(g) && Positive(h) && w != [] && x != [] && g != [] && h != []
      && Embed(lib, a, dim) == Ok(Blended(lib, dim, w, g)) && Embed(lib, b, dim) == Ok(Blended(lib, dim, x, h))
      && Cosine(lib, Embed(lib, a, dim).value, Embed(lib, b, dim).value)
         == Ok(0.6 * Agreement(lib, w, x) + 0.4 * Agreement(lib, g, h))
  {
    TextsClean(lib, dim, a, b);
    var w, x := WordFeatures(Tokens(lib, a)), WordFeatures(Tokens(lib, b));
    var g, h := GramFeatures(lib, Tokens(lib, a)), GramFeatures(lib, Tokens(lib, b));
    assert Embed(lib, a, dim) == Ok(Finished(lib, Blended(lib, dim, w, g)));
    assert Embed(lib, b, dim) == Ok(Finished(lib, Blended(lib, dim, x, h)));
    hide *;
    BlendedUnit(lib, dim, w, g);
    BlendedUnit(lib, dim, x, h);
    BlendedDot(lib, dim, w, g, x, h);
    CosineLaws(lib, Blended(lib, dim, w, g), Blended(lib, dim, x, h));
    MixIs(Agreement(lib, w, x), Agreement(lib, g, h));
  }

  lemma MixIs(x: real, y: real)
    ensures Mix(TOKEN_WEIGHT, x, 1.0 - TOKEN_WEIGHT, y) == 0.6 * x + 0.4 * y
  {
  }

  /** The word bags' inner product counts the common words, so their cosine is the normalised word overlap. */
  lemma {:induction false} WordOverlap(p: seq<string>, q: seq<string>)
    requires Distinct(p) && Distinct(q)
    ensures Inner(WordFeatures(p), WordFeatures(q)) == |set x | x in p && x in q| as real
  {
    if p != [] {
      var n := |p| - 1;
      WordOverlap(p[..n], q);
      assert WordFeatures(p)[..n] == WordFeatures(p[..n]);
      assert WordFeatures(p)[n] == Weighted(Feature(Word, p[n]), 1.0);
      WordWeight(p[n], q);
      hide WeightOf;
      OneMoreCommon(p, q);
      assert Times(1.0, WeightOf(WordFeatures(q), Feature(Word, p[n]))) == if p[n] in q then 1.0 else 0.0;
    }
  }

  lemma OneMoreCommon(p: seq<string>, q: seq<string>)
    requires p != [] && Distinct(p)
    ensures var n := |p| - 1;
      |set x | x in p && x in q| == |set x | x in p[..n] && x in q| + if p[n] in q then 1 else 0
  {
    var n := |p| - 1;
    var before, after := set x | x in p[..n] && x in q, set x | x in p && x in q;
    assert p == p[..n] + [p[n]];
    assert p[n] !in before;
    assert after == if p[n] in q then before + {p[n]} else before;
  }

  lemma {:induction false} WordWeight(word: string, q: seq<string>)
    requires Distinct(q)
    ensures WeightOf(WordFeatures(q), Feature(Word, word)) == if word in q then 1.0 else 0.0
  {
    if q != [] {
      var n := |q| - 1;
      assert WordFeatures(q)[..n] == WordFeatures(q[..n]);
      WordWeight(word, q[..n]);
      assert q == q[..n] + [q[n]];
    }
  }

  lemma {:induction false} AllCommon(p: seq<string>)
    requires Distinct(p)
    ensures |set x | x in p && x in p| == |p|
  {
    if p != [] {
      var n := |p| - 1;
      AllCommon(p[..n]);
      assert p == p[..n] + [p[n]];
      assert (set x | x in p && x in p) == (set x | x in p[..n] && x in p[..n]) + {p[n]};
    }
  }

  /** The word half of the blend: common words over the roots of the two word counts. */
  lemma WordAgreement(lib: Library, p: seq<string>, q: seq<string>)
    requires Roots(lib) && Distinct(p) && Distinct(q) && p != [] && q != []
    ensures lib.sqrt(|p| as real) > 0.0 && lib.sqrt(|q| as real) > 0.0
    ensures BagOf(Word, WordFeatures(p)) && BagOf(Word, WordFeatures(q))
    ensures Agreement(lib, WordFeatures(p), WordFeatures(q))
         == Ratio(|set x | x in p && x in q| as real, lib.sqrt(|p| as real), lib.sqrt(|q| as real))
  {
    RootPositive(lib, |p| as real);
    RootPositive(lib, |q| as real);
    WordOverlap(p, q);
    WordOverlap(p, p);
    WordOverlap(q, q);
    AllCommon(p);
    AllCommon(q);
    hide Inner, Ratio;
  }

  lemma {:induction false} GramWeight(grams: seq<string>, weight: real, g: string)
    requires Distinct(grams)
    ensures WeightOf(Uniform(grams, weight), Feature(Gram, g)) == if g in grams then weight else 0.0
  {
    if grams != [] {
      var n := |grams| - 1;
      assert Uniform(grams, weight)[..n] == Uniform(grams[..n], weight);
      GramWeight(grams[..n], weight, g);
      assert grams == grams[..n] + [grams[n]];
    }
  }

  lemma {:induction false} UniformInner(some: seq<string>, grams: seq<string>, weight: real)
    requires Distinct(grams) && forall g | g in some :: g in grams
    ensures Inner(Uniform(some, weight), Uniform(grams, weight)) == Steps(|some|, Times(weight, weight))
  {
    if some != [] {
      var n := |some| - 1;
      assert Uniform(some, weight)[..n] == Uniform(some[..n], weight);
      assert some[n] in some;
      UniformInner(some[..n], grams, weight);
      GramWeight(grams, weight, some[n]);
      hide WeightOf, Times;
    }
  }

  lemma ShareSquared(n: real, root: real, share: real)
    requires root > 0.0 && n == root * root && share == 1.0 / root
    ensures n * (share * share) == 1.0
  {
    assert root * share == 1.0;
    Assoc(n, share, share);
    Assoc(root, root, share);
    SameProduct(root, root * share, 1.0);
  }

  /** A long word does not outvote a short one: every word's trigrams together have norm one. */
  lemma WordsWeighAlike(lib: Library, word: string)
    requires Roots(lib)
    ensures Inner(GramsOf(lib, word), GramsOf(lib, word)) == 1.0
  {
    var grams := TokenTrigrams(word);
    var n := |grams| as real;
    RootPositive(lib, n);
    var share := 1.0 / lib.sqrt(n);
    assert IsRoot(lib.sqrt(n), n);
    UniformInner(grams, grams, share);
    StepsProduct(|grams|, Times(share, share));
    ShareSquared(n, lib.sqrt(n), share);
    hide Inner, Uniform, Steps, TokenTrigrams;
  }

  /** Texts that fold away entirely match when they share a bucket and its sign, and otherwise not at all. */
  lemma RawCosine(lib: Library, dim: nat, a: string, b: string)
    requires Roots(lib) && dim > 0 && a != "" && b != "" && Tokens(lib, a) == [] && Tokens(lib, b) == []
    ensures var f, g := Feature(Raw, a), Feature(Raw, b);
      Cosine(lib, Embed(lib, a, dim).value, Embed(lib, b, dim).value) ==
      Ok(if lib.digest(f).head % dim != lib.digest(g).head % dim then 0.0
         else if lib.digest(f).odd == lib.digest(g).odd then 1.0 else -1.0)
  {
    var u, v := RawUnit(lib, a, dim), RawUnit(lib, b, dim);
    var i, x := Index(lib, Feature(Raw, a), dim), Sign(lib, Feature(Raw, a));
    assert Embed(lib, a, dim) == Ok(u) && Embed(lib, b, dim) == Ok(v);
    UnitNorm(lib, a, dim);
    UnitNorm(lib, b, dim);
    CosineLaws(lib, u, v);
    assert v[i] == if Index(lib, Feature(Raw, b), dim) == i then Sign(lib, Feature(Raw, b)) else 0.0;
    hide Embed, Norm, Cosine;
    assert u == Zeros(dim)[i := Zeros(dim)[i] + x];
    DotUpdate(Zeros(dim), i, x, v);
    DotZeros(v);
  }
}
