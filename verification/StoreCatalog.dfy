// scripts/build_demo_deployment.py: the vocabulary a title publishes, what its terms are worth,
// and how `_store_catalog` and `_snapshot` consume the window's order.
module StoreCatalog {
  import opened Prelude
  import opened Decimals
  import opened RealMath
  import opened CatalogWindow

  // ---------------------------------------------------------------------------------
  // `_title_terms`, of an already lower-cased title

  predicate WordChar(c: char) {
    'a' <= c <= 'z' || '0' <= c <= '9'
  }

  const STOPWORDS: set<string> := {
    "a", "an", "and", "are", "as", "at", "be", "by", "for", "from", "in", "into", "is", "it", "its", "of", "on", "or",
    "the", "this", "to", "with", "oz", "ct", "pcs", "pack", "size", "color", "colour", "new"
  }

  /** The maximal runs of word characters of `word + s`, where `word` is the run being read. */
  function Runs(s: string, word: string): seq<string> {
    if s == "" then if word == "" then [] else [word]
    else if WordChar(s[0]) then Runs(s[1..], word + [s[0]])
    else if word == "" then Runs(s[1..], "")
    else [word] + Runs(s[1..], "")
  }

  predicate Kept(w: string) {
    w !in STOPWORDS && !AllDigits(w)
  }

  function Keep(ws: seq<string>): seq<string> {
    if ws == [] then [] else (if Kept(ws[0]) then [ws[0]] else []) + Keep(ws[1..])
  }

  function Pairs(ws: seq<string>): seq<string> {
    if |ws| < 2 then [] else [ws[0] + " " + ws[1]] + Pairs(ws[1..])
  }

  function AsTerms(ws: seq<string>): (r: seq<Term>)
    ensures |r| == |ws| && forall i | 0 <= i < |ws| :: r[i] == Term(ws[i])
  {
    seq(|ws|, i requires 0 <= i < |ws| => Term(ws[i]))
  }

  function TitleTerms(lowered: string): seq<Term> {
    var words := Keep(Runs(lowered, ""));
    Dedup(AsTerms(words + Pairs(words)))
  }

  lemma {:induction false} RunsAreWords(s: string, word: string)
    requires forall c | c in word :: WordChar(c)
    ensures forall w | w in Runs(s, word) :: w != "" && forall c | c in w :: WordChar(c)
  {
    if s != "" {
      RunsAreWords(s[1..], if WordChar(s[0]) then word + [s[0]] else "");
    }
  }

  /** A gap before each word and one behind the last. */
  function Interleaved(gaps: seq<string>, words: seq<string>): string
    requires |gaps| == |words| + 1
  {
    if words == [] then gaps[0] else gaps[0] + words[0] + Interleaved(gaps[1..], words[1..])
  }

  predicate IsWord(w: string) {
    w != "" && forall c | c in w :: WordChar(c)
  }

  predicate IsGap(g: string) {
    forall c | c in g :: !WordChar(c)
  }

  /** `s` is these words, apart from each other: every gap holds no word character, and none between two is empty. */
  ghost predicate ReadAs(s: string, words: seq<string>, gaps: seq<string>) {
    && |gaps| == |words| + 1 && s == Interleaved(gaps, words)
    && (forall i | 0 <= i < |words| :: IsWord(words[i]))
    && (forall i | 0 <= i < |gaps| :: IsGap(gaps[i]))
    && (forall i | 0 < i < |words| :: gaps[i] != "")
  }

  lemma LongerGap(c: char, s: string, words: seq<string>, gaps: seq<string>)
    requires !WordChar(c) && ReadAs(s, words, gaps)
    ensures ReadAs([c] + s, words, [[c] + gaps[0]] + gaps[1..])
  {
    var all := [[c] + gaps[0]] + gaps[1..];
    assert IsGap(all[0]) && all[1..] == gaps[1..];
    hide IsWord, IsGap;
    if words != [] {
      var rest := Interleaved(gaps[1..], words[1..]);
      assert [c] + (gaps[0] + words[0] + rest) == [c] + gaps[0] + words[0] + rest;
    }
  }

  lemma WordBefore(word: string, s: string, words: seq<string>, gaps: seq<string>)
    requires IsWord(word) && ReadAs(s, words, gaps) && gaps[0] != ""
    ensures ReadAs(word + s, [word] + words, [""] + gaps)
  {
    var all, more := [""] + gaps, [word] + words;
    assert all[1..] == gaps && more[1..] == words;
    assert IsGap("");
    hide IsWord, IsGap;
    assert "" + word + Interleaved(gaps, words) == word + Interleaved(gaps, words);
  }

  lemma OnlyWord(word: string)
    requires IsWord(word)
    ensures ReadAs(word, [word], ["", ""])
  {
    assert Interleaved([""], []) == "";
    assert ["", ""][1..] == [""] && [word][1..] == [];
    assert "" + word + "" == word;
  }

  /** The words read are exactly the runs of word characters, each as long as it goes, the first to the last. */
  lemma {:induction false} RunsAre(s: string, word: string) returns (gaps: seq<string>)
    requires word == "" || IsWord(word)
    ensures ReadAs(word + s, Runs(s, word), gaps)
  {
    if s == "" {
      assert word + s == word;
      if word == "" {
        gaps := [""];
      } else {
        OnlyWord(word);
        gaps := ["", ""];
      }
    } else if WordChar(s[0]) {
      gaps := RunsAre(s[1..], word + [s[0]]);
      assert word + s == word + [s[0]] + s[1..];
    } else {
      var rest := RunsAre(s[1..], "");
      assert "" + s[1..] == s[1..] && s == [s[0]] + s[1..] && "" + s == s;
      gaps := [[s[0]] + rest[0]] + rest[1..];
      hide ReadAs, IsWord, WordChar;
      LongerGap(s[0], s[1..], Runs(s[1..], ""), rest);
      if word != "" {
        WordBefore(word, s, Runs(s[1..], ""), gaps);
        gaps := [""] + gaps;
      }
    }
  }

  lemma {:induction false} RunsSkip(g: string, s: string)
    requires IsGap(g)
    ensures Runs(g + s, "") == Runs(s, "")
  {
    if g == "" {
      assert g + s == s;
    } else {
      assert (g + s)[0] == g[0] && g[0] in g && (g + s)[1..] == g[1..] + s;
      RunsSkip(g[1..], s);
    }
  }

  lemma {:induction false} RunsTake(w: string, s: string, word: string)
    requires (forall c | c in w :: WordChar(c)) && (s == "" || !WordChar(s[0])) && word + w != ""
    ensures Runs(w + s, word) == [word + w] + Runs(s, "")
  {
    if w == "" {
      assert w + s == s && word + w == word;
    } else {
      assert (w + s)[0] == w[0] && w[0] in w && (w + s)[1..] == w[1..] + s;
      RunsTake(w[1..], s, word + [w[0]]);
      assert word + [w[0]] + w[1..] == word + w;
    }
  }

  /** Nothing but the runs can be read so: whatever a text is read as, it is these words. */
  lemma {:induction false} ReadOnce(s: string, words: seq<string>, gaps: seq<string>)
    requires ReadAs(s, words, gaps)
    ensures words == Runs(s, "")
    decreases words
  {
    assert IsGap(gaps[0]);
    if words == [] {
      RunsSkip(s, "");
      assert s + "" == s;
    } else {
      var tail, more := gaps[1..], words[1..];
      var rest := Interleaved(tail, more);
      assert ReadAs(rest, more, tail) by {
        forall i | 0 < i < |more| ensures tail[i] != "" {
          assert gaps[i + 1] != "";
        }
      }
      GapFirst(rest, more, tail);
      assert IsWord(words[0]);
      RunsSkip(gaps[0], words[0] + rest);
      RunsTake(words[0], rest, "");
      ReadOnce(rest, more, tail);
      assert gaps[0] + words[0] + rest == gaps[0] + (words[0] + rest) && "" + words[0] == words[0];
      assert words == [words[0]] + more;
    }
  }

  lemma GapFirst(s: string, words: seq<string>, gaps: seq<string>)
    requires ReadAs(s, words, gaps) && (words != [] ==> gaps[0] != "")
    ensures s == "" || !WordChar(s[0])
  {
    if s != "" {
      assert s[0] == gaps[0][0] && IsGap(gaps[0]);
    }
  }

  lemma {:induction false} KeepIsFilter(ws: seq<string>, w: string)
    ensures w in Keep(ws) <==> w in ws && Kept(w)
  {
    if ws != [] {
      KeepIsFilter(ws[1..], w);
    }
  }

  lemma {:induction false} KeepInOrder(a: seq<string>, b: seq<string>)
    ensures Keep(a + b) == Keep(a) + Keep(b)
  {
    if a == [] {
      assert a + b == b;
    } else {
      assert (a + b)[0] == a[0] && (a + b)[1..] == a[1..] + b;
      KeepInOrder(a[1..], b);
    }
  }

  lemma {:induction false} PairAt(ws: seq<string>, p: string)
    ensures p in Pairs(ws) <==> exists i :: 0 <= i < |ws| - 1 && p == ws[i] + " " + ws[i + 1]
  {
    if |ws| >= 2 {
      var tail := ws[1..];
      PairAt(tail, p);
      if i :| 0 <= i < |ws| - 1 && p == ws[i] + " " + ws[i + 1] {
        if i > 0 {
          assert p == tail[i - 1] + " " + tail[i];
        }
      }
      if p in Pairs(tail) {
        var i :| 0 <= i < |tail| - 1 && p == tail[i] + " " + tail[i + 1];
        assert p == ws[i + 1] + " " + ws[i + 2];
      }
    }
  }

  /** Terms are distinct, and are exactly the kept words and the pairs of neighbouring kept words. */
  lemma TitleTermsAre(lowered: string, t: Term)
    ensures Distinct(TitleTerms(lowered))
    ensures var words := Keep(Runs(lowered, ""));
      t in TitleTerms(lowered) <==>
        t.text in words || exists i :: 0 <= i < |words| - 1 && t.text == words[i] + " " + words[i + 1]
  {
    var words := Keep(Runs(lowered, ""));
    PairAt(words, t.text);
    var all := words + Pairs(words);
    if t in AsTerms(all) {
      var i :| 0 <= i < |all| && AsTerms(all)[i] == t;
      assert t.text == all[i];
    }
    if t.text in all {
      var i :| 0 <= i < |all| && all[i] == t.text;
      assert AsTerms(all)[i] == t;
    }
  }

  // ---------------------------------------------------------------------------------
  // `_term_weights`

  type Host = string

  const MIN_STORE_DOCUMENT_FREQUENCY := 2

  /** What is assumed of `math.log`: that it does not fall, and that ln 2 = 0.693... and ln 3 = 1.098... */
  ghost predicate LogLike(ln: real -> real) {
    && (forall x, y :: 0.0 < x <= y ==> ln(x) <= ln(y))
    && ln(2.0) >= 0.69 && ln(3.0) >= 1.09
  }

  /** No weight is below ln 2 times ln 3. */
  const WEIGHT_FLOOR: real := 0.75

  ghost function CarryingAmong(stores: map<Host, map<Term, nat>>, hosts: set<Host>, t: Term): nat {
    |set h | h in hosts && h in stores && t in stores[h]|
  }

  /** The inner counting loop: one more carrier for every term of one store. */
  method CountOne(terms: set<Term>, before: map<Term, nat>) returns (carrying: map<Term, nat>)
    ensures forall t :: Times(carrying, t) == Times(before, t) + (if t in terms then 1 else 0)
  {
    carrying := before;
    var left := terms;
    while left != {}
      invariant left <= terms
      invariant forall t :: Times(carrying, t) == Times(before, t) + (if t in terms && t !in left then 1 else 0)
      decreases left
    {
      var t :| t in left;
      carrying := carrying[t := Times(carrying, t) + 1];
      left := left - {t};
    }
  }

  /** The outer one: how many stores carry each term. */
  method CountCarrying(stores: map<Host, map<Term, nat>>) returns (carrying: map<Term, nat>)
    ensures forall t :: Times(carrying, t) == CarryingAmong(stores, stores.Keys, t)
  {
    carrying := map[];
    var todo := stores.Keys;
    ghost var done: set<Host> := {};
    while todo != {}
      invariant done + todo == stores.Keys && done !! todo
      invariant forall t :: Times(carrying, t) == CarryingAmong(stores, done, t)
      decreases todo
    {
      var h :| h in todo;
      carrying := CountOne(stores[h].Keys, carrying);
      CarryingAdd(stores, done, h);
      todo, done := todo - {h}, done + {h};
    }
    assert done == stores.Keys;
  }

  lemma CarryingAdd(stores: map<Host, map<Term, nat>>, hosts: set<Host>, h: Host)
    requires h in stores && h !in hosts
    ensures forall t ::
      CarryingAmong(stores, hosts + {h}, t) == CarryingAmong(stores, hosts, t) + (if t in stores[h] then 1 else 0)
  {
    forall t ensures
      CarryingAmong(stores, hosts + {h}, t) == CarryingAmong(stores, hosts, t) + (if t in stores[h] then 1 else 0)
    {
      var before := set g | g in hosts && g in stores && t in stores[g];
      var after := set g | g in hosts + {h} && g in stores && t in stores[g];
      assert after == if t in stores[h] then before + {h} else before;
    }
  }

  function TermWeight(stores: nat, carrying: nat, count: nat, ln: real -> real): real {
    if carrying == 0 then 0.0
    else ln(1.0 + stores as real / carrying as real) * ln(1.0 + count as real)
  }

  lemma LogGrows(ln: real -> real, x: real, y: real)
    requires LogLike(ln) && 0.0 < x <= y
    ensures ln(x) <= ln(y) && (x < y && Grows(ln) ==> ln(x) < ln(y))
  {
  }

  lemma LogPositive(ln: real -> real, x: real)
    requires LogLike(ln)
    ensures x >= 2.0 ==> ln(x) > 0.0
  {
  }

  /** A term fewer stores carry, or one the store has more of, weighs no less; and more, if the logarithm grows. */
  lemma RarerWeighsMore(stores: nat, few: nat, many: nat, more: nat, less: nat, ln: real -> real)
    requires LogLike(ln) && 0 < few <= many <= stores && more >= less >= MIN_STORE_DOCUMENT_FREQUENCY
    ensures TermWeight(stores, few, more, ln) >= TermWeight(stores, many, less, ln)
    ensures (few < many || more > less) && Grows(ln) ==>
      TermWeight(stores, few, more, ln) > TermWeight(stores, many, less, ln)
  {
    var x, y := 1.0 + stores as real / few as real, 1.0 + stores as real / many as real;
    var u, v := 1.0 + more as real, 1.0 + less as real;
    hide LogLike, Grows;
    Quotients(stores as real, few as real, many as real);
    AtLeastOne(stores as real, many as real);
    LogGrows(ln, y, x);
    LogGrows(ln, v, u);
    LogPositive(ln, y);
    LogPositive(ln, v);
    ProductGrows(ln(x), ln(y), ln(u), ln(v));
    WeightIs(stores, few, more, ln, x, u);
    WeightIs(stores, many, less, ln, y, v);
    hide *;
  }

  lemma WeightIs(stores: nat, carrying: nat, count: nat, ln: real -> real, x: real, u: real)
    requires carrying > 0 && x == 1.0 + stores as real / carrying as real && u == 1.0 + count as real
    ensures TermWeight(stores, carrying, count, ln) == ln(x) * ln(u)
  {
  }

  ghost predicate Grows(ln: real -> real) {
    forall x, y :: 0.0 < x < y ==> ln(x) < ln(y)
  }

  lemma Quotients(s: real, few: real, many: real)
    requires s > 0.0 && 0.0 < few <= many
    ensures 0.0 < s / many <= s / few && (few < many ==> s / many < s / few)
  {
    var x, y := s / few, s / many;
    assert x * few == s && y * many == s;
    if x <= y {
      Scale(few, 0.0, y - x);
      Minus(few, y, x);
      Minus(y, many, few);
      Scale(y, 0.0, many - few);
    }
  }

  lemma ProductGrows(a: real, b: real, c: real, d: real)
    requires a >= b > 0.0 && c >= d > 0.0
    ensures a * c >= b * d && (a > b || c > d ==> a * c > b * d)
  {
    assert a * c - b * d == (a - b) * c + b * (c - d);
    NonNeg(a - b, c);
    NonNeg(b, c - d);
  }

  method TermWeights(stores: map<Host, map<Term, nat>>, host: Host, ln: real -> real) returns (weights: map<Term, real>)
    requires host in stores && LogLike(ln)
    ensures forall t :: t in weights <==> t in stores[host] && stores[host][t] >= MIN_STORE_DOCUMENT_FREQUENCY
    ensures forall t | t in weights ::
      weights[t] == TermWeight(|stores|, CarryingAmong(stores, stores.Keys, t), stores[host][t], ln)
    ensures forall t | t in weights :: weights[t] >= WEIGHT_FLOOR
  {
    var carrying := CountCarrying(stores);
    forall t | t in stores[host] ensures 0 < CarryingAmong(stores, stores.Keys, t) <= |stores| {
      var carriers := set h | h in stores.Keys && h in stores && t in stores[h];
      assert host in carriers;
      SetSize(carriers, stores.Keys);
    }
    forall t | t in stores[host] && stores[host][t] >= MIN_STORE_DOCUMENT_FREQUENCY
      ensures TermWeight(|stores|, CarryingAmong(stores, stores.Keys, t), stores[host][t], ln) >= WEIGHT_FLOOR
    {
      WeightFloor(|stores|, CarryingAmong(stores, stores.Keys, t), stores[host][t], ln);
    }
    weights := map t | t in stores[host] && stores[host][t] >= MIN_STORE_DOCUMENT_FREQUENCY ::
      TermWeight(|stores|, Times(carrying, t), stores[host][t], ln);
  }

  lemma WeightFloor(stores: nat, carrying: nat, count: nat, ln: real -> real)
    requires LogLike(ln) && 0 < carrying <= stores && count >= MIN_STORE_DOCUMENT_FREQUENCY
    ensures TermWeight(stores, carrying, count, ln) >= WEIGHT_FLOOR
  {
    AtLeastOne(stores as real, carrying as real);
    var across, within := ln(1.0 + stores as real / carrying as real), ln(1.0 + count as real);
    assert across >= 0.69 && within >= 1.09;
    hide *;
    Scale(0.69, 1.09, within);
    Scale(within, 0.69, across);
  }

  lemma AtLeastOne(x: real, y: real)
    requires 0.0 < y <= x
    ensures x / y >= 1.0
  {
  }

  /** So a store built from titles and vocabularies is one the window's theorems apply to. */
  lemma BuiltStoreWellFormed(titles: map<Ref, string>, weights: map<Term, real>, damp: nat -> real)
    requires Damping(damp) && forall t | t in weights :: weights[t] >= WEIGHT_FLOOR
    ensures WellFormed(Store(map r | r in titles :: TitleTerms(titles[r]), weights, damp))
  {
    forall r | r in titles ensures Distinct(TitleTerms(titles[r])) {
      TitleTermsAre(titles[r], Term(""));
    }
  }

  // ---------------------------------------------------------------------------------
  // `_store_catalog`: the lead, then the window, then everything else

  /** `(-relevance, place in the window, product_ref)`; `min` over it picks the lead. */
  datatype LeadKey = LeadKey(relevance: int, place: nat, ref: Ref)

  predicate LeadLeq(a: LeadKey, b: LeadKey) {
    || a.relevance > b.relevance
    || (a.relevance == b.relevance && (a.place < b.place || (a.place == b.place && StrLeq(a.ref.id, b.ref.id))))
  }

  function Place(order: seq<Ref>, r: Ref): (p: nat)
    ensures r in order ==> p < |order| && order[p] == r
    ensures r !in order ==> p == |order|
  {
    if order == [] || order[0] == r then 0 else 1 + Place(order[1..], r)
  }

  /** `placed.get(ref, outside)`, with `outside = len(order) + 1`. */
  function PlaceOr(order: seq<Ref>, r: Ref): nat {
    if r in order then Place(order, r) else |order| + 1
  }

  function KeyOf(relevance: map<Ref, int>, order: seq<Ref>, r: Ref): LeadKey
    requires r in relevance
  {
    LeadKey(relevance[r], PlaceOr(order, r), r)
  }

  /** Of two products as relevant: first in the window, and outside it the smaller ref. */
  ghost predicate LeadsAmongEqual(order: seq<Ref>, lead: Ref, r: Ref) {
    && (r in order ==> lead in order && Place(order, lead) <= Place(order, r))
    && (r !in order && lead !in order ==> StrLeq(lead.id, r.id))
  }

  /** `min(catalog, key=...)`: most relevant, then first in the window, then the smaller ref. */
  method Lead(relevance: map<Ref, int>, order: seq<Ref>) returns (lead: Ref)
    requires relevance != map[]
    ensures lead in relevance
    ensures forall r | r in relevance :: LeadLeq(KeyOf(relevance, order, lead), KeyOf(relevance, order, r))
    ensures forall r | r in relevance :: relevance[r] <= relevance[lead]
    ensures forall r | r in relevance && relevance[r] == relevance[lead] :: LeadsAmongEqual(order, lead, r)
  {
    var todo := relevance.Keys;
    lead :| lead in relevance;
    StrLeqTotal(lead.id, lead.id);
    todo := todo - {lead};
    while todo != {}
      invariant lead in relevance && todo <= relevance.Keys
      invariant forall r | r in relevance && r !in todo ::
        LeadLeq(KeyOf(relevance, order, lead), KeyOf(relevance, order, r))
      decreases todo
    {
      var r :| r in todo;
      var a, b := KeyOf(relevance, order, lead), KeyOf(relevance, order, r);
      StrLeqTotal(lead.id, r.id);
      StrLeqTotal(r.id, r.id);
      if !LeadLeq(a, b) {
        forall q | q in relevance && q !in todo ensures LeadLeq(b, KeyOf(relevance, order, q)) {
          LeadLeqTransitive(b, a, KeyOf(relevance, order, q));
        }
        lead := r;
      }
      todo := todo - {r};
    }
  }

  lemma LeadLeqTransitive(a: LeadKey, b: LeadKey, c: LeadKey)
    requires LeadLeq(a, b) && LeadLeq(b, c)
    ensures LeadLeq(a, c)
  {
    if a.relevance == b.relevance == c.relevance && a.place == b.place == c.place {
      StrLeqTransitive(a.ref.id, b.ref.id, c.ref.id);
    }
  }

  function Without(order: seq<Ref>, lead: Ref): (r: seq<Ref>)
    ensures forall x :: x in r <==> x in order && x != lead
  {
    if order == [] then []
    else (if order[0] != lead then [order[0]] else []) + Without(order[1..], lead)
  }

  /** `sorted(..., key=lambda ref: (-base[ref], ref))`, of a set of such keys. */
  ghost function Sorted(keys: set<Entry>): seq<Ref>
    decreases |keys|
  {
    if keys == {} then [] else [Least(keys).ref] + Sorted(keys - {Least(keys)})
  }

  /** What is left behind the window, by falling worth. */
  function RestKeys(base: map<Ref, real>, order: seq<Ref>, lead: Ref): set<Entry> {
    set r | r in base && r != lead && r !in order :: Entry(-base[r], r)
  }

  /** `ranked`: `base` is a product's undamped worth. */
  ghost function Ranked(base: map<Ref, real>, order: seq<Ref>, lead: Ref): seq<Ref> {
    [lead] + Without(order, lead) +
    Sorted(RestKeys(base, order, lead))
  }

  lemma {:induction false} WithoutDistinct(order: seq<Ref>, lead: Ref)
    requires Distinct(order)
    ensures Distinct(Without(order, lead))
    ensures lead !in order ==> Without(order, lead) == order
    ensures |Without(order, lead)| == |order| - (if lead in order then 1 else 0)
  {
    if order != [] {
      WithoutDistinct(order[1..], lead);
      assert order == [order[0]] + order[1..];
      AppendDistinct([order[0]], Without(order[1..], lead));
    }
  }

  lemma {:induction false} SortedIs(keys: set<Entry>)
    requires forall a, b | a in keys && b in keys && a.ref == b.ref :: a == b
    ensures Distinct(Sorted(keys))
    ensures forall r :: r in Sorted(keys) <==> exists e :: e in keys && e.ref == r
    decreases |keys|
  {
    if keys != {} {
      var e := Least(keys);
      SortedIs(keys - {e});
      var rest := Sorted(keys - {e});
      assert e.ref !in rest;
      forall r ensures r in Sorted(keys) <==> exists x :: x in keys && x.ref == r {
        if x :| x in keys && x.ref == r {
          assert x == e || x in keys - {e};
        }
      }
    }
  }

  /** The catalogue's refs, each exactly once: the lead, the rest of the window in order, the rest. */
  lemma RankedIsPermutation(base: map<Ref, real>, order: seq<Ref>, lead: Ref)
    requires Distinct(order) && lead in base && forall r | r in order :: r in base
    ensures Distinct(Ranked(base, order, lead)) && SetOf(Ranked(base, order, lead)) == base.Keys
  {
    var keys := RestKeys(base, order, lead);
    var head, tail := Without(order, lead), Sorted(keys);
    WithoutDistinct(order, lead);
    SortedIs(keys);
    forall r ensures r in tail <==> r in base && r != lead && r !in order {
      if r in base && r != lead && r !in order {
        assert Entry(-base[r], r) in keys;
      }
    }
    assert Ranked(base, order, lead) == [lead] + head + tail;
    hide Sorted, Without, Ranked;
    AppendDistinct([lead], head);
    AppendDistinct([lead] + head, tail);
  }

  /** What comes before what behind the lead: the window first and in its order, then worth, then the ref. */
  ghost predicate RankedBefore(base: map<Ref, real>, order: seq<Ref>, a: Ref, b: Ref)
    requires a in base && b in base
  {
    if a in order && b in order then Place(order, a) < Place(order, b)
    else if a in order || b in order then a in order
    else base[a] > base[b] || (base[a] == base[b] && StrLeq(a.id, b.id))
  }

  lemma {:induction false} SortedOrder(keys: set<Entry>, i: nat, j: nat) returns (a: Entry, b: Entry)
    requires i < j < |Sorted(keys)|
    ensures a in keys && b in keys && a.ref == Sorted(keys)[i] && b.ref == Sorted(keys)[j]
    ensures a.key < b.key || (a.key == b.key && StrLeq(a.ref.id, b.ref.id))
    decreases |keys|
  {
    var e := Least(keys);
    if i == 0 {
      a := e;
      b := SortedAt(keys - {e}, j - 1);
      assert EntryLeq(a, b);
    } else {
      a, b := SortedOrder(keys - {e}, i - 1, j - 1);
    }
  }

  lemma {:induction false} SortedAt(keys: set<Entry>, i: nat) returns (a: Entry)
    requires i < |Sorted(keys)|
    ensures a in keys && a.ref == Sorted(keys)[i]
    decreases |keys|
  {
    if i == 0 {
      a := Least(keys);
    } else {
      a := SortedAt(keys - {Least(keys)}, i - 1);
    }
  }

  lemma {:induction false} WithoutCut(order: seq<Ref>, lead: Ref)
    requires Distinct(order) && lead in order
    ensures var p := Place(order, lead);
      Without(order, lead) == order[..p] + order[p + 1..]
  {
    WithoutDistinct(order[1..], lead);
    if order[0] != lead {
      WithoutCut(order[1..], lead);
      assert order[..Place(order, lead)] == [order[0]] + order[1..][..Place(order[1..], lead)];
    }
  }

  /** The k-th of the others is the k-th of the window, or the one behind it. */
  lemma WithoutPlace(order: seq<Ref>, lead: Ref, k: nat) returns (p: nat)
    requires Distinct(order) && k < |Without(order, lead)|
    ensures p == if lead in order && Place(order, lead) <= k then k + 1 else k
    ensures p < |order| && Without(order, lead)[k] == order[p] && Place(order, order[p]) == p
  {
    WithoutDistinct(order, lead);
    if lead in order {
      WithoutCut(order, lead);
    }
    hide Without;
    p := if lead in order && Place(order, lead) <= k then k + 1 else k;
  }

  lemma WithoutOrder(order: seq<Ref>, lead: Ref, i: nat, j: nat)
    requires Distinct(order) && i < j < |Without(order, lead)|
    ensures Without(order, lead)[i] in order && Without(order, lead)[j] in order
    ensures Place(order, Without(order, lead)[i]) < Place(order, Without(order, lead)[j])
  {
    hide *;
    var p := WithoutPlace(order, lead, i);
    var q := WithoutPlace(order, lead, j);
  }

  lemma RankedAt(base: map<Ref, real>, order: seq<Ref>, lead: Ref, i: nat)
    requires 0 < i < |Ranked(base, order, lead)|
    ensures Ranked(base, order, lead)[0] == lead
    ensures var head, tail := Without(order, lead), Sorted(RestKeys(base, order, lead));
      && |Ranked(base, order, lead)| == 1 + |head| + |tail|
      && Ranked(base, order, lead)[i] == if i <= |head| then head[i - 1] else tail[i - 1 - |head|]
  {
    hide Without, Sorted;
  }

  lemma BothInWindow(base: map<Ref, real>, order: seq<Ref>, lead: Ref, i: nat, j: nat)
    requires Distinct(order) && (forall r | r in order :: r in base) && i < j < |Without(order, lead)|
    ensures var head := Without(order, lead);
      head[i] in base && head[j] in base && RankedBefore(base, order, head[i], head[j])
  {
    hide Without, Place, Distinct;
    WithoutOrder(order, lead, i, j);
  }

  lemma OneInWindow(base: map<Ref, real>, order: seq<Ref>, lead: Ref, i: nat, j: nat)
    requires (forall r | r in order :: r in base) && i < |Without(order, lead)|
    requires j < |Sorted(RestKeys(base, order, lead))|
    ensures var head, tail := Without(order, lead), Sorted(RestKeys(base, order, lead));
      head[i] in base && tail[j] in base && RankedBefore(base, order, head[i], tail[j])
  {
    var b := SortedAt(RestKeys(base, order, lead), j);
    hide Without, Sorted, Place;
    assert Without(order, lead)[i] in Without(order, lead);
  }

  lemma NoneInWindow(base: map<Ref, real>, order: seq<Ref>, lead: Ref, i: nat, j: nat)
    requires i < j < |Sorted(RestKeys(base, order, lead))|
    ensures var tail := Sorted(RestKeys(base, order, lead));
      tail[i] in base && tail[j] in base && RankedBefore(base, order, tail[i], tail[j])
  {
    var a, b := SortedOrder(RestKeys(base, order, lead), i, j);
    hide Sorted, Place, StrLeq;
  }

  /** The lead first, then the window in its order, then the rest by falling worth and rising ref. */
  lemma RankedOrder(base: map<Ref, real>, order: seq<Ref>, lead: Ref, i: nat, j: nat)
    requires Distinct(order) && lead in base && (forall r | r in order :: r in base)
    requires 0 < i < j < |Ranked(base, order, lead)|
    ensures var ranked := Ranked(base, order, lead);
      && ranked[0] == lead && ranked[i] in base && ranked[j] in base
      && RankedBefore(base, order, ranked[i], ranked[j])
  {
    hide *;
    RankedAt(base, order, lead, i);
    RankedAt(base, order, lead, j);
    var n := 1 + |Without(order, lead)|;
    if j < n {
      BothInWindow(base, order, lead, i - 1, j - 1);
    } else if i < n {
      OneInWindow(base, order, lead, i - 1, j - n);
    } else {
      NoneInWindow(base, order, lead, i - n, j - n);
    }
  }

  lemma AppendDistinct(a: seq<Ref>, b: seq<Ref>)
    requires Distinct(a) && Distinct(b) && forall x | x in a :: x !in b
    ensures Distinct(a + b)
  {
    forall i, j | 0 <= i < j < |a + b| ensures (a + b)[i] != (a + b)[j] {
      if i < |a| <= j {
        assert (a + b)[i] in a && (a + b)[j] in b;
      }
    }
  }

  /**
   * What `_snapshot` ships, when the window is as full as the store allows: the window itself when the
   * lead is in it, as it is whenever the store is no larger than the snapshot, and otherwise the window
   * with its LAST pick displaced by the lead.
   */
  lemma SnapshotIsWindow(base: map<Ref, real>, order: seq<Ref>, lead: Ref, size: nat)
    requires Distinct(order) && lead in base && (forall r | r in order :: r in base)
    requires |order| == Min(size, |base|)
    ensures size > |order| ==> SetOf(order) == base.Keys
    ensures size > 0 && lead !in order ==> |order| == size
    ensures SetOf(Ranked(base, order, lead)[..Min(size, |Ranked(base, order, lead)|)])
         == if size == 0 then {} else if lead in order then SetOf(order) else {lead} + SetOf(order[..size - 1])
  {
    DistinctSize(order);
    if |order| == |base| {
      SubsetOfSameSize(SetOf(order), base.Keys);
    }
    RankedIsPermutation(base, order, lead);
    DistinctSize(Ranked(base, order, lead));
    if size > |order| {
      assert Ranked(base, order, lead)[..|base|] == Ranked(base, order, lead);
    } else if size > 0 {
      hide Sorted, Without;
      FullWindow(base, order, lead);
    }
  }

  lemma FullWindow(base: map<Ref, real>, order: seq<Ref>, lead: Ref)
    requires Distinct(order) && order != [] && |order| <= |Ranked(base, order, lead)|
    ensures SetOf(Ranked(base, order, lead)[..|order|])
         == if lead in order then SetOf(order) else {lead} + SetOf(order[..|order| - 1])
  {
    WithoutDistinct(order, lead);
    var head := [lead] + Without(order, lead);
    var tail := Sorted(RestKeys(base, order, lead));
    assert Ranked(base, order, lead) == head + tail;
    hide Sorted, Without, Ranked;
    assert (head + tail)[..|order|] == head[..|order|];
    if lead in order {
      assert head[..|order|] == head;
    } else {
      assert head[..|order|] == [lead] + order[..|order| - 1];
    }
  }
}
