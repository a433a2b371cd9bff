// proxyshop_support/embedding.py: what the spelling half of the blend compares. A word's trigrams are the windows of
// the word between two pads on either side; two words agree by the trigrams they share.
module EmbeddingGrams {
  import opened Prelude
  import opened RealMath
  import opened Vectors
  import opened Embedding

  /** The i-th character of two pads, the word, two pads. */
  function CharAt(word: string, i: int): char {
    if 2 <= i < |word| + 2 then word[i - 2] else '\U{0002}'
  }

  function GramAt(word: string, i: int): string {
    [CharAt(word, i), CharAt(word, i + 1), CharAt(word, i + 2)]
  }

  /** The trigram at every place from the first pad to the word's last character and its pads. */
  ghost function PaddedGrams(word: string): set<string> {
    set i | 0 <= i <= |word| + 1 :: GramAt(word, i)
  }

  lemma WindowIs(word: string, i: nat)
    requires i <= |word| + 1
    ensures var padded := PAD + PAD + word + PAD + PAD;
      |padded| == |word| + 4 && padded[i..i + TRIGRAM_ORDER] == GramAt(word, i)
  {
    var padded := PAD + PAD + word + PAD + PAD;
    forall k | 0 <= k < |word| + 4 ensures padded[k] == CharAt(word, k) {
    }
  }

  lemma {:induction false} SizeOfDistinct(s: seq<string>, all: set<string>)
    requires Distinct(s) && forall x :: x in s <==> x in all
    ensures |s| == |all|
  {
    if s == [] {
      assert all == {};
    } else {
      var n := |s| - 1;
      assert s == s[..n] + [s[n]];
      SizeOfDistinct(s[..n], all - {s[n]});
    }
  }

  /** Each padded trigram of the word once, and nothing else. */
  lemma TrigramsAre(word: string)
    ensures Distinct(TokenTrigrams(word)) && |TokenTrigrams(word)| == |PaddedGrams(word)|
    ensures forall g :: g in TokenTrigrams(word) <==> g in PaddedGrams(word)
  {
    var padded := PAD + PAD + word + PAD + PAD;
    var windows := Windows(padded, TRIGRAM_ORDER);
    assert TokenTrigrams(word) == Dedup(windows);
    forall i | 0 <= i <= |word| + 1 ensures i < |windows| && windows[i] == GramAt(word, i) {
      WindowIs(word, i);
    }
    hide Dedup, Windows, GramAt, TokenTrigrams;
    forall g ensures g in windows <==> g in PaddedGrams(word) {
      if g in windows {
        var i :| 0 <= i < |windows| && windows[i] == g;
        assert g == GramAt(word, i);
      }
    }
    SizeOfDistinct(Dedup(windows), PaddedGrams(word));
  }

  // ---------------------------------------------------------------------------------
  // Two words

  ghost function CommonGrams(w: string, v: string): nat {
    |PaddedGrams(w) * PaddedGrams(v)|
  }

  lemma HasGrams(word: string)
    ensures |PaddedGrams(word)| > 0
  {
    assert GramAt(word, 0) in PaddedGrams(word);
  }

  /** The trigrams two words share, over the roots of how many each has. */
  ghost function Spelling(lib: Library, w: string, v: string): real
    requires Roots(lib)
  {
    HasGrams(w);
    HasGrams(v);
    RootPositive(lib, |PaddedGrams(w)| as real);
    RootPositive(lib, |PaddedGrams(v)| as real);
    Ratio(CommonGrams(w, v) as real, lib.sqrt(|PaddedGrams(w)| as real), lib.sqrt(|PaddedGrams(v)| as real))
  }

  lemma {:induction false} UniformOverlap(some: seq<string>, x: real, grams: seq<string>, y: real)
    requires Distinct(some) && Distinct(grams)
    ensures Inner(Uniform(some, x), Uniform(grams, y)) == Steps(|set g | g in some && g in grams|, Times(x, y))
  {
    if some != [] {
      var n := |some| - 1;
      assert Uniform(some, x)[..n] == Uniform(some[..n], x);
      UniformOverlap(some[..n], x, grams, y);
      GramWeight(grams, y, some[n]);
      OneMoreCommon(some, grams);
      assert Times(x, 0.0) == 0.0;
      hide WeightOf, Times;
    }
  }

  lemma RatioOfShares(n: real, m: real, k: real, q: real, r: real)
    requires m > 0.0 && k > 0.0 && q == 1.0 / m && r == 1.0 / k
    ensures n * Times(q, r) == Ratio(n, m, k)
  {
    StrictlyPositive(m, k, m * k);
    assert q * m == 1.0 && r * k == 1.0;
    Assoc(q * r, m, k);
    Assoc(q, r, m);
    Assoc(q, m, r);
    assert (q * r) * (m * k) == 1.0;
    Assoc(n, q * r, m * k);
    Quotient(n * (q * r), m * k, n);
  }

  lemma Quotient(x: real, y: real, z: real)
    requires y > 0.0 && x * y == z
    ensures x == z / y
  {
  }

  lemma CommonAre(w: string, v: string)
    ensures (set g | g in TokenTrigrams(w) && g in TokenTrigrams(v)) == PaddedGrams(w) * PaddedGrams(v)
  {
    TrigramsAre(w);
    TrigramsAre(v);
    hide TokenTrigrams, PaddedGrams;
  }

  lemma ShareOf(lib: Library, word: string) returns (root: real, share: real)
    requires Roots(lib)
    ensures root == lib.sqrt(|PaddedGrams(word)| as real) && root > 0.0 && share == 1.0 / root
    ensures Distinct(TokenTrigrams(word)) && GramsOf(lib, word) == Uniform(TokenTrigrams(word), share)
  {
    TrigramsAre(word);
    hide TokenTrigrams, PaddedGrams, Uniform;
    RootPositive(lib, |TokenTrigrams(word)| as real);
    root := lib.sqrt(|PaddedGrams(word)| as real);
    share := 1.0 / root;
  }

  lemma GramsOverlap(lib: Library, w: string, v: string)
    requires Roots(lib)
    ensures Inner(GramsOf(lib, w), GramsOf(lib, v)) == Spelling(lib, w, v)
  {
    hide *;
    var m, q := ShareOf(lib, w);
    var k, r := ShareOf(lib, v);
    SpellingIs(lib, w, v, m, k);
    CommonAre(w, v);
    UniformOverlap(TokenTrigrams(w), q, TokenTrigrams(v), r);
    StepsProduct(|PaddedGrams(w) * PaddedGrams(v)|, Times(q, r));
    RatioOfShares(|PaddedGrams(w) * PaddedGrams(v)| as real, m, k, q, r);
  }

  lemma SpellingIs(lib: Library, w: string, v: string, m: real, k: real)
    requires Roots(lib) && m > 0.0 && k > 0.0
    requires m == lib.sqrt(|PaddedGrams(w)| as real) && k == lib.sqrt(|PaddedGrams(v)| as real)
    ensures Spelling(lib, w, v) == Ratio(|PaddedGrams(w) * PaddedGrams(v)| as real, m, k)
  {
    hide PaddedGrams, Ratio;
  }

  // ---------------------------------------------------------------------------------
  // Two texts

  lemma {:induction false} WeightAppend(a: seq<Weighted>, b: seq<Weighted>, f: Feature)
    ensures WeightOf(a + b, f) == WeightOf(a, f) + WeightOf(b, f)
  {
    if b == [] {
      assert a + b == a;
    } else {
      var n := |b| - 1;
      assert (a + b)[..|a + b| - 1] == a + b[..n] && (a + b)[|a + b| - 1] == b[n];
      WeightAppend(a, b[..n], f);
    }
  }

  lemma {:induction false} InnerAppendLeft(a: seq<Weighted>, b: seq<Weighted>, c: seq<Weighted>)
    ensures Inner(a + b, c) == Inner(a, c) + Inner(b, c)
  {
    hide WeightOf, Times;
    if b == [] {
      assert a + b == a;
    } else {
      var n := |b| - 1;
      assert (a + b)[..|a + b| - 1] == a + b[..n] && (a + b)[|a + b| - 1] == b[n];
      InnerAppendLeft(a, b[..n], c);
    }
  }

  lemma TimesPlus(x: real, y: real, z: real)
    ensures Times(x, y + z) == Times(x, y) + Times(x, z)
  {
    Plus(x, y, z);
  }

  lemma {:induction false} InnerAppendRight(c: seq<Weighted>, a: seq<Weighted>, b: seq<Weighted>)
    ensures Inner(c, a + b) == Inner(c, a) + Inner(c, b)
  {
    if c != [] {
      var n := |c| - 1;
      InnerAppendRight(c[..n], a, b);
      WeightAppend(a, b, c[n].feature);
      TimesPlus(c[n].weight, WeightOf(a, c[n].feature), WeightOf(b, c[n].feature));
      hide WeightOf, Times;
    }
  }

  lemma {:induction false} NothingRight(c: seq<Weighted>)
    ensures Inner(c, []) == 0.0
  {
    if c != [] {
      NothingRight(c[..|c| - 1]);
      assert Times(c[|c| - 1].weight, 0.0) == 0.0;
    }
  }

  /** A word against every word of a text. */
  ghost function SpellingAgainst(lib: Library, w: string, words: seq<string>): real
    requires Roots(lib)
  {
    if words == [] then 0.0
    else SpellingAgainst(lib, w, words[..|words| - 1]) + Spelling(lib, w, words[|words| - 1])
  }

  /** Every word of one text against every word of the other. */
  ghost function SpellingOf(lib: Library, p: seq<string>, q: seq<string>): real
    requires Roots(lib)
  {
    if p == [] then 0.0 else SpellingOf(lib, p[..|p| - 1], q) + SpellingAgainst(lib, p[|p| - 1], q)
  }

  lemma {:induction false} WordAgainst(lib: Library, w: string, q: seq<string>)
    requires Roots(lib)
    ensures Inner(GramsOf(lib, w), GramFeatures(lib, q)) == SpellingAgainst(lib, w, q)
    decreases q
  {
    hide Inner, Spelling, GramsOf;
    if q == [] {
      NothingRight(GramsOf(lib, w));
    } else {
      var n := |q| - 1;
      WordAgainst(lib, w, q[..n]);
      GramsOverlap(lib, w, q[n]);
      InnerAppendRight(GramsOf(lib, w), GramFeatures(lib, q[..n]), GramsOf(lib, q[n]));
    }
  }

  lemma {:induction false} TextsAgainst(lib: Library, p: seq<string>, q: seq<string>)
    requires Roots(lib)
    ensures Inner(GramFeatures(lib, p), GramFeatures(lib, q)) == SpellingOf(lib, p, q)
    decreases p
  {
    if p != [] {
      hide Inner, SpellingAgainst, GramsOf;
      var n := |p| - 1;
      TextsAgainst(lib, p[..n], q);
      WordAgainst(lib, p[n], q);
      InnerAppendLeft(GramFeatures(lib, p[..n]), GramsOf(lib, p[n]), GramFeatures(lib, q));
      assert GramFeatures(lib, p) == GramFeatures(lib, p[..n]) + GramsOf(lib, p[n]);
    }
  }

  /**
   * The spelling half of the blend, for any two texts: over all pairs of their words, the trigrams shared over the
   * roots of how many each word has; and that, over the roots of what each text has so with itself.
   */
  lemma GramAgreement(lib: Library, p: seq<string>, q: seq<string>)
    requires Roots(lib) && p != [] && q != []
    ensures BagOf(Gram, GramFeatures(lib, p)) && BagOf(Gram, GramFeatures(lib, q))
    ensures SpellingOf(lib, p, p) > 0.0 && SpellingOf(lib, q, q) > 0.0
    ensures lib.sqrt(SpellingOf(lib, p, p)) > 0.0 && lib.sqrt(SpellingOf(lib, q, q)) > 0.0
    ensures Agreement(lib, GramFeatures(lib, p), GramFeatures(lib, q))
         == Ratio(SpellingOf(lib, p, q), lib.sqrt(SpellingOf(lib, p, p)), lib.sqrt(SpellingOf(lib, q, q)))
  {
    GramBag(lib, p);
    GramBag(lib, q);
    TextsAgainst(lib, p, q);
    TextsAgainst(lib, p, p);
    TextsAgainst(lib, q, q);
    InnerPositive(GramFeatures(lib, p), GramFeatures(lib, p));
    InnerPositive(GramFeatures(lib, q), GramFeatures(lib, q));
    RootPositive(lib, SpellingOf(lib, p, p));
    RootPositive(lib, SpellingOf(lib, q, q));
    hide Inner, Ratio, GramFeatures, SpellingOf;
  }

  /** Two words agree by the trigrams they share, over the root of the product of how many each has. */
  lemma WordsSpelled(lib: Library, w: string, v: string)
    requires Roots(lib)
    ensures BagOf(Gram, GramFeatures(lib, [w])) && BagOf(Gram, GramFeatures(lib, [v]))
    ensures Agreement(lib, GramFeatures(lib, [w]), GramFeatures(lib, [v])) == Spelling(lib, w, v)
  {
    OnePair(lib, w, v);
    OnePair(lib, w, w);
    OnePair(lib, v, v);
    GramsOverlap(lib, w, w);
    GramsOverlap(lib, v, v);
    WordsWeighAlike(lib, w);
    WordsWeighAlike(lib, v);
    RootOne(lib);
    GramAgreement(lib, [w], [v]);
    hide Spelling, SpellingOf, Agreement, GramFeatures, GramsOf, Inner;
  }

  lemma OnePair(lib: Library, w: string, v: string)
    requires Roots(lib)
    ensures SpellingOf(lib, [w], [v]) == Spelling(lib, w, v)
  {
    hide Spelling;
    assert [w][..0] == [] && [v][..0] == [];
    assert SpellingAgainst(lib, w, [v]) == SpellingAgainst(lib, w, []) + Spelling(lib, w, v);
    assert SpellingOf(lib, [w], [v]) == SpellingOf(lib, [], [v]) + SpellingAgainst(lib, w, [v]);
  }

  /** A text's words, however often it repeats them. */
  ghost function WordsOf(lib: Library, text: string): set<string> {
    set w | w in lib.fold(text)
  }

  /** The word half for any two texts: the words both have, over the roots of how many different ones each has. */
  lemma TextAgreement(lib: Library, a: string, b: string)
    requires Roots(lib) && lib.fold(a) != [] && lib.fold(b) != []
    ensures var w, x := WordFeatures(Tokens(lib, a)), WordFeatures(Tokens(lib, b));
      var m, n := lib.sqrt(|WordsOf(lib, a)| as real), lib.sqrt(|WordsOf(lib, b)| as real);
      && BagOf(Word, w) && BagOf(Word, x) && m > 0.0 && n > 0.0
      && Agreement(lib, w, x) == Ratio(|WordsOf(lib, a) * WordsOf(lib, b)| as real, m, n)
  {
    var p, q := Tokens(lib, a), Tokens(lib, b);
    TokensAre(lib, a);
    TokensAre(lib, b);
    assert (set x | x in p && x in q) == WordsOf(lib, a) * WordsOf(lib, b);
    hide Tokens, WordsOf, WordFeatures, Ratio, Agreement;
    WordAgreement(lib, p, q);
  }

  lemma TokensAre(lib: Library, text: string)
    ensures Distinct(Tokens(lib, text)) && |Tokens(lib, text)| == |WordsOf(lib, text)|
    ensures forall w :: w in Tokens(lib, text) <==> w in WordsOf(lib, text)
    ensures lib.fold(text) != [] ==> Tokens(lib, text) != []
  {
    hide Dedup;
    SizeOfDistinct(Tokens(lib, text), WordsOf(lib, text));
    assert lib.fold(text) != [] ==> lib.fold(text)[0] in Tokens(lib, text);
  }

  // ---------------------------------------------------------------------------------
  // An example

  const SHARED: set<string> := {"\U{0002}\U{0002}s", "\U{0002}sh", "sho", "hoe"}

  const OF_SHOE: set<string> := {"oe\U{0002}", "e\U{0002}\U{0002}"}

  const OF_SHOES: set<string> := {"oes", "es\U{0002}", "s\U{0002}\U{0002}"}

  lemma GramsOfShoe()
    ensures PaddedGrams("shoe") == SHARED + OF_SHOE
  {
    var w := "shoe";
    assert GramAt(w, 0) == "\U{0002}\U{0002}s" && GramAt(w, 1) == "\U{0002}sh" && GramAt(w, 2) == "sho";
    assert GramAt(w, 3) == "hoe" && GramAt(w, 4) == "oe\U{0002}" && GramAt(w, 5) == "e\U{0002}\U{0002}";
    hide GramAt;
  }

  lemma GramsOfShoes()
    ensures PaddedGrams("shoes") == SHARED + OF_SHOES
  {
    var w := "shoes";
    assert GramAt(w, 0) == "\U{0002}\U{0002}s" && GramAt(w, 1) == "\U{0002}sh" && GramAt(w, 2) == "sho";
    assert GramAt(w, 3) == "hoe" && GramAt(w, 4) == "oes" && GramAt(w, 5) == "es\U{0002}";
    assert GramAt(w, 6) == "s\U{0002}\U{0002}";
    hide GramAt;
  }

  lemma SharedSize()
    ensures |SHARED| == 4
  {
  }

  lemma RestSizes()
    ensures |OF_SHOE| == 2 && |OF_SHOES| == 3
  {
  }

  lemma RestsApart()
    ensures OF_SHOE !! OF_SHOES
  {
  }

  lemma SharedApart()
    ensures SHARED !! OF_SHOE && SHARED !! OF_SHOES
  {
  }

  lemma Overlapping<T>(c: set<T>, a: set<T>, b: set<T>)
    requires c !! a && c !! b && a !! b
    ensures (c + a) * (c + b) == c && |c + a| == |c| + |a| && |c + b| == |c| + |b|
  {
  }

  /** "shoe" and "shoes" share four of their six and seven trigrams. */
  lemma ShoeAndShoes(lib: Library)
    requires Roots(lib)
    ensures lib.sqrt(6.0) > 0.0 && lib.sqrt(7.0) > 0.0
    ensures Spelling(lib, "shoe", "shoes") == Ratio(4.0, lib.sqrt(6.0), lib.sqrt(7.0))
  {
    GramsOfShoe();
    GramsOfShoes();
    RootPositive(lib, 6.0);
    RootPositive(lib, 7.0);
    SharedSize();
    RestSizes();
    RestsApart();
    SharedApart();
    hide *;
    Overlapping(SHARED, OF_SHOE, OF_SHOES);
    SpellingIs(lib, "shoe", "shoes", lib.sqrt(6.0), lib.sqrt(7.0));
  }
}
