// scripts/build_demo_deployment.py, `_window_order`: the quadratic loop's list, characterised without
// the order on heap tuples. Each pick is worth the most of what is left, and of two worth as much the
// one with the smaller `product_ref` comes first.
module CatalogPicks {
  import opened Prelude
  import opened CatalogWindow

  /** After `picked`, `a` is worth more than `b`, or as much with the smaller ref. */
  ghost predicate Preferred(st: Store, picked: set<Ref>, a: Ref, b: Ref)
    requires a in st.terms && b in st.terms
  {
    || GainAfter(st, picked, a) > GainAfter(st, picked, b)
    || (GainAfter(st, picked, a) == GainAfter(st, picked, b) && StrLeq(a.id, b.id))
  }

  /** `best` is a product not yet picked, preferred to each of the others. */
  ghost predicate BestLeft(st: Store, picked: set<Ref>, best: Ref) {
    && best in st.terms && best !in picked
    && forall r | r in st.terms && r !in picked && r != best :: Preferred(st, picked, best, r)
  }

  ghost predicate TakesBest(st: Store, order: seq<Ref>, i: nat)
    requires i < |order|
  {
    BestLeft(st, SetOf(order[..i]), order[i])
  }

  /** As long as the window and the store allow, the best of what is left at every place. */
  ghost predicate BestFirst(st: Store, order: seq<Ref>, window: int) {
    && |order| == Min(Max(0, window), |st.terms|)
    && forall i: nat | i < |order| :: TakesBest(st, order, i)
  }

  lemma LeastIsBest(st: Store, picked: set<Ref>)
    requires Fresh(st, picked) != {}
    ensures BestLeft(st, picked, Least(Fresh(st, picked)).ref)
  {
    var e := Least(Fresh(st, picked));
    forall r | r in st.terms && r !in picked && r != e.ref ensures Preferred(st, picked, e.ref, r) {
      var x := Entry(-GainAfter(st, picked, r), r);
      assert x in Fresh(st, picked);
      assert EntryLeq(e, x);
    }
  }

  lemma OneBest(st: Store, picked: set<Ref>, a: Ref, b: Ref)
    requires BestLeft(st, picked, a) && BestLeft(st, picked, b)
    ensures a == b
  {
    if a != b {
      assert Preferred(st, picked, a, b) && Preferred(st, picked, b, a);
      StrLeqAntisymmetric(a.id, b.id);
    }
  }

  lemma NoneLeft(st: Store, picked: set<Ref>)
    ensures Fresh(st, picked) == {} <==> st.terms.Keys <= picked
  {
    if r :| r in st.terms.Keys && r !in picked {
      assert Entry(-GainAfter(st, picked, r), r) in Fresh(st, picked);
    }
  }

  /** Nothing more to pick: the window is full, or the store is used up. */
  lemma PickedAll(st: Store, picked: seq<Ref>, room: nat)
    requires Distinct(picked) && SetOf(picked) <= st.terms.Keys && (room == 0 || st.terms.Keys <= SetOf(picked))
    requires forall i: nat | i < |picked| :: TakesBest(st, picked, i)
    ensures BestFirst(st, picked, |picked| + room)
  {
    hide TakesBest;
    DistinctSize(picked);
    SetSize(SetOf(picked), st.terms.Keys);
    if room > 0 {
      assert SetOf(picked) == st.terms.Keys;
    }
  }

  lemma EagerEnds(st: Store, picked: seq<Ref>, room: nat)
    requires room == 0 || Fresh(st, SetOf(picked)) == {}
    ensures picked + Eager(st, picked, room) == picked
  {
  }

  lemma {:induction false} EagerPicks(st: Store, picked: seq<Ref>, room: nat)
    requires Distinct(picked) && SetOf(picked) <= st.terms.Keys
    requires forall i: nat | i < |picked| :: TakesBest(st, picked, i)
    ensures BestFirst(st, picked + Eager(st, picked, room), |picked| + room)
    decreases room
  {
    hide *;
    NoneLeft(st, SetOf(picked));
    if room == 0 || Fresh(st, SetOf(picked)) == {} {
      EagerEnds(st, picked, room);
      PickedAll(st, picked, room);
    } else {
      var best := Least(Fresh(st, SetOf(picked))).ref;
      LeastIsBest(st, SetOf(picked));
      EagerStep(st, picked, room, best);
      PickOne(st, picked, best);
      EagerPicks(st, picked + [best], room - 1);
      assert |picked + [best]| + (room - 1) == |picked| + room;
    }
  }

  lemma PickOne(st: Store, picked: seq<Ref>, best: Ref)
    requires Distinct(picked) && SetOf(picked) <= st.terms.Keys && BestLeft(st, SetOf(picked), best)
    requires forall i: nat | i < |picked| :: TakesBest(st, picked, i)
    ensures Distinct(picked + [best]) && SetOf(picked + [best]) <= st.terms.Keys
    ensures forall i: nat | i < |picked + [best]| :: TakesBest(st, picked + [best], i)
  {
    assert best in st.terms && best !in SetOf(picked);
    hide BestLeft;
    SetOfAppend(picked, best);
    forall i: nat | i < |picked + [best]| ensures TakesBest(st, picked + [best], i) {
      if i < |picked| {
        assert (picked + [best])[..i] == picked[..i];
        assert TakesBest(st, picked, i);
      } else {
        assert (picked + [best])[..i] == picked;
      }
    }
  }

  lemma {:induction false} SamePicks(st: Store, a: seq<Ref>, b: seq<Ref>)
    requires |a| == |b|
    requires forall i: nat | i < |a| :: TakesBest(st, a, i) && TakesBest(st, b, i)
    ensures a == b
  {
    if a != [] {
      var n := |a| - 1;
      forall i: nat | i < n ensures TakesBest(st, a[..n], i) && TakesBest(st, b[..n], i) {
        assert a[..n][..i] == a[..i] && b[..n][..i] == b[..i];
        assert TakesBest(st, a, i) && TakesBest(st, b, i);
      }
      SamePicks(st, a[..n], b[..n]);
      assert TakesBest(st, a, n) && TakesBest(st, b, n);
      OneBest(st, SetOf(a[..n]), a[n], b[n]);
    }
  }

  /** "Ties break on product_ref": one list only is best first, and the quadratic loop returns it. */
  lemma EagerIsBestFirst(st: Store, window: int, order: seq<Ref>)
    ensures order == Eager(st, [], window) <==> BestFirst(st, order, window)
  {
    if window < 0 {
    } else {
      EagerPicks(st, [], window);
      assert [] + Eager(st, [], window) == Eager(st, [], window);
      if BestFirst(st, order, window) {
        SamePicks(st, order, Eager(st, [], window));
      }
    }
  }

  /** So the heap loop's list is best first, under the conditions that make it the quadratic loop's. */
  lemma WindowIsBestFirst(st: Store, window: int, eps: real, order: seq<Ref>)
    requires WellFormed(st) && eps >= 0.0 && (eps == 0.0 || Coarse(st, eps))
    ensures order == Window(st, window, eps) <==> BestFirst(st, order, window)
  {
    hide *;
    LazyIsEager(st, window, eps);
    EagerIsBestFirst(st, window, order);
  }

  /** Of two products with the same terms the smaller ref is taken first, and the larger never without it. */
  lemma EqualTermsInOrder(st: Store, order: seq<Ref>, window: int, p: Ref, q: Ref, j: nat)
    requires BestFirst(st, order, window) && p in st.terms && q in st.terms && st.terms[p] == st.terms[q]
    requires p != q && StrLeq(p.id, q.id) && j < |order| && order[j] == q
    ensures p in order[..j]
  {
    assert TakesBest(st, order, j);
    if p !in order[..j] {
      assert Preferred(st, SetOf(order[..j]), q, p);
      StrLeqAntisymmetric(p.id, q.id);
    }
  }
}
