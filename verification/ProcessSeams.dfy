// proxyshop_support/process_seams.py: putting process-wide wiring back after a test, in a process where
// two dotted names may be one module, and two attributes one dictionary.
module ProcessSeams {
  import opened Prelude

  /** A module attribute holds nothing, some object known only by its identity, or a dictionary by its identity. */
  datatype Value = Nothing | Object(id: int) | Dict(id: int)

  datatype Kind = VALUE | MAPPING

  datatype Seam = Seam(name: string, attribute: string, kind: Kind)

  const SPELLINGS: seq<string> := ["exchange", "apps.exchange.src"]

  datatype Suffix = Suffix(suffix: string, attribute: string, kind: Kind)

  const SUFFIXES: seq<Suffix> := [
    Suffix("accept.offer", "_platform_domains", VALUE),
    Suffix("accept.claims", "_platform_claims", VALUE),
    Suffix("checkout.registry", "_REGISTRY", MAPPING)]

  type Entries = map<string, int>

  datatype Place = Place(module_: int, attribute: string)

  /** `loaded` is `sys.modules`; `attributes` and `dicts` are the live objects behind it. */
  datatype Heap = Heap(loaded: map<string, int>, attributes: map<Place, Value>, dicts: map<int, Entries>)

  function Read(h: Heap, p: Place): Value {
    if p in h.attributes then h.attributes[p] else Nothing
  }

  function Contents(h: Heap, id: int): Entries {
    if id in h.dicts then h.dicts[id] else map[]
  }

  /** What a seam names right now, if its module is loaded. */
  function At(h: Heap, name: string, attribute: string): Option<Place> {
    if name in h.loaded then Some(Place(h.loaded[name], attribute)) else None
  }

  datatype Saved = Reference(value: Value) | Copy(entries: Option<Entries>)

  /** One row of the snapshot. */
  datatype Taken = Taken(name: string, attribute: string, kind: Kind, present: bool, saved: Saved)

  /** `dict(current)` of what is no mapping: snapshot raises there. */
  predicate Unreadable(h: Heap, s: Seam) {
    s.kind == MAPPING && At(h, s.name, s.attribute).Some? && Read(h, At(h, s.name, s.attribute).value).Object?
  }

  function Take(h: Heap, s: Seam): Taken {
    match At(h, s.name, s.attribute)
    case None => Taken(s.name, s.attribute, s.kind, false, if s.kind == VALUE then Reference(Nothing) else Copy(None))
    case Some(place) =>
      var current := Read(h, place);
      Taken(s.name, s.attribute, s.kind, true,
        if s.kind == VALUE then Reference(current)
        else if current.Dict? then Copy(Some(Contents(h, current.id)))
        else Copy(None))
  }

  function Snapshot(h: Heap, seams: seq<Seam>): (r: seq<Taken>)
    ensures |r| == |seams|
  {
    seq(|seams|, i requires 0 <= i < |seams| => Take(h, seams[i]))
  }

  /** A mapping seam that restoring would write to: there at the snapshot, and a dictionary then and now. */
  function LiveDict(h: Heap, t: Taken): Option<int> {
    match At(h, t.name, t.attribute)
    case None => None
    case Some(place) =>
      if t.kind == MAPPING && t.present && t.saved.Copy? && t.saved.entries.Some? && Read(h, place).Dict?
      then Some(Read(h, place).id) else None
  }

  /** The same on the way back: the row was recorded off a mapping, and its seam now holds something else. */
  predicate Stops(h: Heap, t: Taken) {
    && t.kind == MAPPING && t.present && t.saved.Copy? && t.saved.entries.Some?
    && At(h, t.name, t.attribute).Some? && Read(h, At(h, t.name, t.attribute).value).Object?
  }

  function RestoreOne(h: Heap, t: Taken): (Heap, bool) {
    match At(h, t.name, t.attribute)
    case None => (h, false)
    case Some(place) =>
      if t.kind == MAPPING then
        if LiveDict(h, t).None? then (h, false)
        else
          var id, entries := LiveDict(h, t).value, t.saved.entries.value;
          if Contents(h, id) == entries then (h, false) else (h.(dicts := h.dicts[id := entries]), true)
      else if t.saved.Reference? && Read(h, place) != t.saved.value then
        (h.(attributes := h.attributes[place := t.saved.value]), true)
      else (h, false)
  }

  datatype Changed = Changed(name: string, attribute: string)

  function Restore(h: Heap, taken: seq<Taken>): (Heap, seq<Changed>) {
    if taken == [] then (h, [])
    else
      var t := taken[|taken| - 1];
      var (before, changed) := Restore(h, taken[..|taken| - 1]);
      var (after, moved) := RestoreOne(before, t);
      (after, changed + if moved then [Changed(t.name, t.attribute)] else [])
  }

  /** How many rows are dealt with before one raises. */
  function Reached(h: Heap, taken: seq<Taken>): (k: nat)
    ensures k <= |taken|
  {
    if taken == [] then 0
    else
      var n := |taken| - 1;
      var k := Reached(h, taken[..n]);
      if k < n || Stops(Restore(h, taken[..n]).0, taken[n]) then k else n + 1
  }

  /** The process: `snapshot` reads it, `restore` writes it in place. */
  class Process {
    var loaded: map<string, int>
    var attributes: map<Place, Value>
    var dicts: map<int, Entries>

    ghost function Now(): Heap
      reads this
    {
      Heap(loaded, attributes, dicts)
    }

    constructor (h: Heap)
      ensures Now() == h
    {
      loaded, attributes, dicts := h.loaded, h.attributes, h.dicts;
    }

    /** `snapshot` over the spellings, outermost, and the suffixes; none if it raises. */
    method TakeSnapshot() returns (r: Option<seq<Taken>>)
      ensures r.None? <==> exists s :: s in Seams(SPELLINGS, SUFFIXES) && Unreadable(Now(), s)
      ensures r.Some? ==> r.value == Snapshot(Now(), Seams(SPELLINGS, SUFFIXES))
    {
      var h := Heap(loaded, attributes, dicts);
      var taken: seq<Taken> := [];
      hide Take, Unreadable;
      for i := 0 to |SPELLINGS|
        invariant taken == Snapshot(h, Seams(SPELLINGS[..i], SUFFIXES))
          && AllReadable(h, Seams(SPELLINGS[..i], SUFFIXES))
      {
        ghost var above := Seams(SPELLINGS[..i], SUFFIXES);
        for j := 0 to |SUFFIXES|
          invariant taken == Snapshot(h, above + Spelled(SPELLINGS[i], SUFFIXES[..j]))
          invariant AllReadable(h, above + Spelled(SPELLINGS[i], SUFFIXES[..j]))
        {
          var seam := SeamOf(SPELLINGS[i], SUFFIXES[j]);
          SeamInTable(i, j);
          if Unreadable(h, seam) {
            return None;
          }
          assert SUFFIXES[..j + 1][..j] == SUFFIXES[..j];
          SnapshotMore(h, above + Spelled(SPELLINGS[i], SUFFIXES[..j]), seam);
          ConcatAssoc(above, Spelled(SPELLINGS[i], SUFFIXES[..j]), [seam]);
          taken := taken + [Take(h, seam)];
        }
        assert SUFFIXES[..|SUFFIXES|] == SUFFIXES && SPELLINGS[..i + 1][..i] == SPELLINGS[..i];
      }
      assert SPELLINGS[..|SPELLINGS|] == SPELLINGS;
      r := Some(taken);
    }

    /** On a row that raises, the rows before it stay restored and the answer is lost with the call. */
    method RestoreTaken(taken: seq<Taken>, enabled: bool) returns (changed: Option<seq<Changed>>)
      modifies this
      ensures enabled ==> var k := Reached(old(Now()), taken); var (end, moved) := Restore(old(Now()), taken[..k]);
        Now() == end && changed == if k == |taken| then Some(moved) else None
      ensures !enabled ==> Now() == old(Now()) && changed == Some([])
    {
      var names := [];
      if !enabled {
        return Some(names);
      }
      for i := 0 to |taken|
        invariant (Now(), names) == Restore(old(Now()), taken[..i]) && Reached(old(Now()), taken[..i]) == i
      {
        var t := taken[i];
        assert taken[..i + 1][..i] == taken[..i];
        ghost var h, c := Now(), names;
        if t.name in loaded {
          var place := Place(loaded[t.name], t.attribute);
          var current := if place in attributes then attributes[place] else Nothing;
          if t.kind == MAPPING {
            if t.present && t.saved.Copy? && t.saved.entries.Some? && current != Nothing {
              if current.Object? {
                StoppedAt(old(Now()), taken, i);
                return None;
              }
              var entries := if current.id in dicts then dicts[current.id] else map[];
              if entries != t.saved.entries.value {
                names := names + [Changed(t.name, t.attribute)];
                dicts := dicts[current.id := t.saved.entries.value];
              }
            }
          } else if t.saved.Reference? && current != t.saved.value {
            names := names + [Changed(t.name, t.attribute)];
            attributes := attributes[place := t.saved.value];
          }
        }
        assert c + [] == c;
        assert (Now(), names) == (RestoreOne(h, t).0,
          c + if RestoreOne(h, t).1 then [Changed(t.name, t.attribute)] else []);
      }
      assert taken[..|taken|] == taken;
      changed := Some(names);
    }
  }

  ghost predicate AllReadable(h: Heap, seams: seq<Seam>) {
    forall s | s in seams :: !Unreadable(h, s)
  }

  lemma {:induction false} StoppedAt(h: Heap, taken: seq<Taken>, i: nat)
    requires i < |taken| && Reached(h, taken[..i]) == i && Stops(Restore(h, taken[..i]).0, taken[i])
    ensures Reached(h, taken) == i
    decreases |taken|
  {
    hide Stops, Restore;
    var n := |taken| - 1;
    if i < n {
      assert taken[..n][..i] == taken[..i];
      StoppedAt(h, taken[..n], i);
    }
  }

  lemma {:induction false} SpelledMembers(root: string, suffixes: seq<Suffix>, j: nat)
    requires j < |suffixes|
    ensures SeamOf(root, suffixes[j]) in Spelled(root, suffixes)
  {
    var n := |suffixes| - 1;
    if j < n {
      SpelledMembers(root, suffixes[..n], j);
    }
  }

  lemma {:induction false} SeamsMembers(roots: seq<string>, suffixes: seq<Suffix>, i: nat, s: Seam)
    requires i < |roots| && s in Spelled(roots[i], suffixes)
    ensures s in Seams(roots, suffixes)
  {
    var n := |roots| - 1;
    if i < n {
      SeamsMembers(roots[..n], suffixes, i, s);
    }
  }

  lemma SeamInTable(i: nat, j: nat)
    requires i < |SPELLINGS| && j < |SUFFIXES|
    ensures SeamOf(SPELLINGS[i], SUFFIXES[j]) in Seams(SPELLINGS, SUFFIXES)
  {
    hide *;
    SpelledMembers(SPELLINGS[i], SUFFIXES, j);
    SeamsMembers(SPELLINGS, SUFFIXES, i, SeamOf(SPELLINGS[i], SUFFIXES[j]));
  }

  function SeamOf(root: string, s: Suffix): Seam {
    Seam(root + "." + s.suffix, s.attribute, s.kind)
  }

  function Spelled(root: string, suffixes: seq<Suffix>): seq<Seam> {
    if suffixes == [] then [] else Spelled(root, suffixes[..|suffixes| - 1]) + [SeamOf(root, suffixes[|suffixes| - 1])]
  }

  function Seams(roots: seq<string>, suffixes: seq<Suffix>): seq<Seam> {
    if roots == [] then [] else Seams(roots[..|roots| - 1], suffixes) + Spelled(roots[|roots| - 1], suffixes)
  }

  lemma SnapshotMore(h: Heap, seams: seq<Seam>, s: Seam)
    ensures Snapshot(h, seams + [s]) == Snapshot(h, seams) + [Take(h, s)]
  {
  }

  // ---------------------------------------------------------------------------------
  // What restoring achieves

  /**
   * This row's seam holds what the row recorded (or its module is not loaded, or the row is no business of
   * restore's).
   */
  ghost predicate Back(h: Heap, t: Taken) {
    match At(h, t.name, t.attribute)
    case None => true
    case Some(place) =>
      if t.kind == MAPPING then LiveDict(h, t).Some? ==> Contents(h, LiveDict(h, t).value) == t.saved.entries.value
      else t.saved.Reference? ==> Read(h, place) == t.saved.value
  }

  ghost predicate AllBack(h: Heap, taken: seq<Taken>) {
    forall i | 0 <= i < |taken| :: Back(h, taken[i])
  }

  /** Two rows that write one loaded attribute, and two rows that write one dictionary. */
  ghost predicate SameReference(h: Heap, t: Taken, u: Taken) {
    t.kind == VALUE && u.kind == VALUE && At(h, t.name, t.attribute).Some?
      && At(h, t.name, t.attribute) == At(h, u.name, u.attribute)
  }

  ghost predicate SameDict(h: Heap, t: Taken, u: Taken) {
    LiveDict(h, t).Some? && LiveDict(h, t) == LiveDict(h, u)
  }

  /** No two rows write different things to one place: aliased seams recorded the same. */
  ghost predicate Agree(h: Heap, t: Taken, u: Taken) {
    SameReference(h, t, u) || SameDict(h, t, u) ==> t.saved == u.saved
  }

  ghost predicate Consistent(h: Heap, taken: seq<Taken>) {
    forall i, j | 0 <= i < |taken| && 0 <= j < |taken| :: Agree(h, taken[i], taken[j])
  }

  /** The rows a snapshot over one table produces: a kind of reference per kind of seam, and one kind per attribute. */
  ghost predicate Sane(taken: seq<Taken>) {
    && (forall t | t in taken :: t.saved.Reference? <==> t.kind == VALUE)
    && (forall t, u | t in taken && u in taken && t.attribute == u.attribute :: t.kind == u.kind)
  }

  /** Restoring one row moves no other row's place, and no dictionary identity. */
  ghost predicate SamePlaces(h: Heap, g: Heap, taken: seq<Taken>) {
    && g.loaded == h.loaded
    && forall t | t in taken :: LiveDict(g, t) == LiveDict(h, t) && Stops(g, t) == Stops(h, t)
  }

  lemma OneKeepsPlaces(h: Heap, t: Taken, taken: seq<Taken>)
    requires Sane(taken) && t in taken
    ensures SamePlaces(h, RestoreOne(h, t).0, taken)
  {
    var g := RestoreOne(h, t).0;
    forall u | u in taken ensures LiveDict(g, u) == LiveDict(h, u) && Stops(g, u) == Stops(h, u) {
      if t.kind == VALUE && u.kind == MAPPING {
        assert t.attribute != u.attribute;
      }
    }
  }

  lemma OneBack(h: Heap, t: Taken)
    requires t.saved.Reference? <==> t.kind == VALUE
    ensures Back(RestoreOne(h, t).0, t)
    ensures RestoreOne(h, t).1 <==> !Back(h, t)
    ensures !RestoreOne(h, t).1 ==> RestoreOne(h, t).0 == h
  {
  }

  /** A row that agrees with the one being restored stays back once it is. */
  lemma OneKeepsBack(h: Heap, t: Taken, u: Taken)
    requires Sane([t, u]) && Agree(h, t, u) && Back(h, u)
    ensures Back(RestoreOne(h, t).0, u)
  {
    assert t in [t, u] && u in [t, u];
    OneKeepsPlaces(h, t, [t, u]);
  }

  lemma SaneParts(taken: seq<Taken>, part: seq<Taken>)
    requires Sane(taken) && forall t | t in part :: t in taken
    ensures Sane(part)
  {
  }

  lemma {:induction false} RestoreKeepsPlaces(h: Heap, taken: seq<Taken>, all: seq<Taken>)
    requires Sane(all) && forall t | t in taken :: t in all
    ensures SamePlaces(h, Restore(h, taken).0, all)
  {
    if taken != [] {
      var rest, t := taken[..|taken| - 1], taken[|taken| - 1];
      assert t in taken && forall u | u in rest :: u in taken;
      RestoreKeepsPlaces(h, rest, all);
      hide LiveDict, RestoreOne, Sane;
      OneKeepsPlaces(Restore(h, rest).0, t, all);
    }
  }

  /** A restore raises exactly when some mapping seam it would put back holds no mapping when it starts. */
  lemma {:induction false} RaisesIff(h: Heap, taken: seq<Taken>)
    requires Sane(taken)
    ensures Reached(h, taken) == |taken| <==> forall t | t in taken :: !Stops(h, t)
  {
    if taken != [] {
      var rest, t := taken[..|taken| - 1], taken[|taken| - 1];
      assert t in taken && forall u :: u in taken <==> u in rest || u == t;
      SaneParts(taken, rest);
      RaisesIff(h, rest);
      RestoreKeepsPlaces(h, rest, taken);
      hide Stops, Restore, Sane, LiveDict;
    }
  }

  lemma AgreeThere(h: Heap, g: Heap, all: seq<Taken>, t: Taken, u: Taken)
    requires SamePlaces(h, g, all) && t in all && u in all && Agree(h, t, u)
    ensures Agree(g, t, u)
  {
  }

  lemma {:induction false} RestoreBack(h: Heap, taken: seq<Taken>, all: seq<Taken>)
    requires Sane(all) && (forall t | t in taken :: t in all) && (forall t, u | t in all && u in all :: Agree(h, t, u))
    ensures AllBack(Restore(h, taken).0, taken)
  {
    if taken != [] {
      var rest, t := taken[..|taken| - 1], taken[|taken| - 1];
      assert t in taken && forall u | u in rest :: u in taken;
      RestoreBack(h, rest, all);
      RestoreKeepsPlaces(h, rest, all);
      var g := Restore(h, rest).0;
      assert t.saved.Reference? <==> t.kind == VALUE;
      hide LiveDict, RestoreOne, Back, Agree, SamePlaces;
      OneBack(g, t);
      forall i | 0 <= i < |rest| ensures Back(RestoreOne(g, t).0, rest[i]) {
        AgreeThere(h, g, all, t, rest[i]);
        SaneParts(all, [t, rest[i]]);
        OneKeepsBack(g, t, rest[i]);
      }
    }
  }

  /** If all rows are back already, restoring finds nothing to do. */
  lemma {:induction false} NothingToDo(h: Heap, taken: seq<Taken>)
    requires Sane(taken)
    ensures Restore(h, taken).1 == [] <==> AllBack(h, taken)
    ensures Restore(h, taken).1 == [] ==> Restore(h, taken).0 == h
  {
    if taken != [] {
      var rest, t := taken[..|taken| - 1], taken[|taken| - 1];
      assert t in taken;
      SaneParts(taken, rest);
      NothingToDo(h, rest);
      OneBack(h, t);
      hide RestoreOne, Back, Sane;
      if AllBack(h, taken) {
        assert AllBack(h, rest);
      }
      if AllBack(h, rest) && Back(h, t) {
        assert AllBack(h, taken);
      }
    }
  }

  lemma BackAgree(h: Heap, g: Heap, all: seq<Taken>, t: Taken, u: Taken)
    requires Sane(all) && t in all && u in all && SamePlaces(h, g, all) && Back(g, t) && Back(g, u)
    ensures Agree(h, t, u)
  {
  }

  /**
   * Restoring puts every seam back exactly when the seams that share a place now were recorded alike, and
   * that is also exactly when a second restore has nothing left to report.
   */
  lemma RestoreIff(h: Heap, taken: seq<Taken>)
    requires Sane(taken)
    ensures AllBack(Restore(h, taken).0, taken) <==> Consistent(h, taken)
    ensures Restore(Restore(h, taken).0, taken).1 == [] <==> Consistent(h, taken)
    ensures Consistent(h, taken) ==> Restore(Restore(h, taken).0, taken).0 == Restore(h, taken).0
  {
    var g := Restore(h, taken).0;
    RestoreKeepsPlaces(h, taken, taken);
    NothingToDo(g, taken);
    if Consistent(h, taken) {
      forall t, u | t in taken && u in taken ensures Agree(h, t, u) {
        var i :| 0 <= i < |taken| && taken[i] == t;
        var j :| 0 <= j < |taken| && taken[j] == u;
      }
      RestoreBack(h, taken, taken);
    }
    hide Back, Agree, SamePlaces, Restore;
    if AllBack(g, taken) {
      forall i, j | 0 <= i < |taken| && 0 <= j < |taken| ensures Agree(h, taken[i], taken[j]) {
        BackAgree(h, g, taken, taken[i], taken[j]);
      }
    }
  }

  /** Nothing else moves: no other attribute, no other dictionary, no module. */
  lemma {:induction false} RestoreFrame(h: Heap, taken: seq<Taken>, place: Place, id: int)
    requires Sane(taken)
    requires forall t | t in taken && t.kind == VALUE :: At(h, t.name, t.attribute) != Some(place)
    requires forall t | t in taken :: LiveDict(h, t) != Some(id)
    ensures var g := Restore(h, taken).0;
      g.loaded == h.loaded && Read(g, place) == Read(h, place) && Contents(g, id) == Contents(h, id)
  {
    if taken != [] {
      var rest, t := taken[..|taken| - 1], taken[|taken| - 1];
      assert t in taken && forall u | u in rest :: u in taken;
      SaneParts(taken, rest);
      RestoreFrame(h, rest, place, id);
      RestoreKeepsPlaces(h, rest, taken);
      hide Sane, Restore;
      var g := Restore(h, rest).0;
      assert At(g, t.name, t.attribute) == At(h, t.name, t.attribute) && LiveDict(g, t) == LiveDict(h, t);
      assert Restore(h, taken).0 == RestoreOne(g, t).0 by {
        RestoreLast(h, taken);
      }
    }
  }

  lemma RestoreLast(h: Heap, taken: seq<Taken>)
    requires taken != []
    ensures Restore(h, taken).0 == RestoreOne(Restore(h, taken[..|taken| - 1]).0, taken[|taken| - 1]).0
  {
  }

  // ---------------------------------------------------------------------------------
  // From snapshot to restore

  ghost predicate KindsAgree(seams: seq<Seam>) {
    forall s, u | s in seams && u in seams && s.attribute == u.attribute :: s.kind == u.kind
  }

  lemma SnapshotSane(h: Heap, seams: seq<Seam>)
    requires KindsAgree(seams)
    ensures Sane(Snapshot(h, seams))
  {
    var taken := Snapshot(h, seams);
    forall t | t in taken
      ensures exists s :: s in seams && t == Take(h, s)
    {
      var i :| 0 <= i < |taken| && taken[i] == t;
      assert seams[i] in seams;
    }
  }

  /** What the two names stand for: the same module object (or neither is loaded), or the same dictionary. */
  ghost predicate OnePlace(h: Heap, s: Seam, u: Seam) {
    At(h, s.name, s.attribute) == At(h, u.name, u.attribute)
  }

  ghost predicate OneDict(h: Heap, s: Seam, u: Seam) {
    && At(h, s.name, s.attribute).Some? && At(h, u.name, u.attribute).Some?
    && Read(h, At(h, s.name, s.attribute).value) == Read(h, At(h, u.name, u.attribute).value)
  }

  /** Seams that share a place after the test shared it before the test. */
  ghost predicate SharedBefore(before: Heap, after: Heap, s: Seam, u: Seam) {
    var t, v := Take(before, s), Take(before, u);
    && (SameReference(after, t, v) ==> OnePlace(before, s, u))
    && (SameDict(after, t, v) ==> OneDict(before, s, u))
  }

  lemma SharedAgree(before: Heap, after: Heap, s: Seam, u: Seam)
    requires SharedBefore(before, after, s, u)
    ensures Agree(after, Take(before, s), Take(before, u))
  {
  }

  /** A value seam of a loaded module reads what it read before, or "nothing is wired" if it was imported since. */
  ghost predicate ValueUndone(before: Heap, after: Heap, end: Heap, s: Seam) {
    s.kind == VALUE && At(after, s.name, s.attribute).Some? ==>
      var was := At(before, s.name, s.attribute);
      Read(end, At(after, s.name, s.attribute).value) == if was.Some? then Read(before, was.value) else Nothing
  }

  /** A mapping seam that was there, and is a dictionary still, is the same object with the entries it had. */
  ghost predicate MappingUndone(before: Heap, after: Heap, end: Heap, s: Seam) {
    var was, now := At(before, s.name, s.attribute), At(after, s.name, s.attribute);
    s.kind == MAPPING && was.Some? && now.Some? && Read(before, was.value).Dict? && Read(after, now.value).Dict? ==>
      && Read(end, now.value) == Read(after, now.value)
      && Contents(end, Read(after, now.value).id) == Contents(before, Read(before, was.value).id)
  }

  /**
   * Whatever a test did in between, restoring its snapshot undoes it, provided seams share a module or a
   * dictionary after the test only if they did before; and a second restore reports and changes nothing.
   */
  lemma RestoreUndoes(before: Heap, after: Heap, seams: seq<Seam>)
    requires KindsAgree(seams)
    requires forall s, u | s in seams && u in seams :: SharedBefore(before, after, s, u)
    ensures var taken := Snapshot(before, seams); var end := Restore(after, taken).0;
      && (forall s | s in seams :: ValueUndone(before, after, end, s) && MappingUndone(before, after, end, s))
      && Restore(end, taken) == (end, [])
  {
    var taken := Snapshot(before, seams);
    var end := Restore(after, taken).0;
    SnapshotSane(before, seams);
    forall i, j | 0 <= i < |taken| && 0 <= j < |taken| ensures Agree(after, taken[i], taken[j]) {
      SharedAgree(before, after, seams[i], seams[j]);
    }
    RestoreIff(after, taken);
    RestoreKeepsPlaces(after, taken, taken);
    forall s | s in seams ensures ValueUndone(before, after, end, s) && MappingUndone(before, after, end, s) {
      var i :| 0 <= i < |seams| && seams[i] == s;
      assert taken[i] in taken && Back(end, taken[i]);
      OneUndone(before, after, end, taken, s);
    }
  }

  lemma OneUndone(before: Heap, after: Heap, end: Heap, taken: seq<Taken>, s: Seam)
    requires Sane(taken) && Take(before, s) in taken && SamePlaces(after, end, taken) && Back(end, Take(before, s))
    ensures ValueUndone(before, after, end, s) && MappingUndone(before, after, end, s)
  {
    assert LiveDict(end, Take(before, s)) == LiveDict(after, Take(before, s));
    hide Sane, SamePlaces;
  }

  lemma {:induction false} SpelledFrom(root: string, suffixes: seq<Suffix>, s: Seam)
    requires s in Spelled(root, suffixes)
    ensures exists x :: x in suffixes && s.attribute == x.attribute && s.kind == x.kind
  {
    var n := |suffixes| - 1;
    if s == SeamOf(root, suffixes[n]) {
      assert suffixes[n] in suffixes;
    } else {
      SpelledFrom(root, suffixes[..n], s);
    }
  }

  lemma {:induction false} SeamsFrom(roots: seq<string>, suffixes: seq<Suffix>, s: Seam)
    requires s in Seams(roots, suffixes)
    ensures exists x :: x in suffixes && s.attribute == x.attribute && s.kind == x.kind
  {
    var n := |roots| - 1;
    if s in Spelled(roots[n], suffixes) {
      SpelledFrom(roots[n], suffixes, s);
    } else {
      SeamsFrom(roots[..n], suffixes, s);
    }
  }

  /** The repository's own table meets the one thing asked of a table, whatever the spellings. */
  lemma TableKinds(roots: seq<string>)
    ensures KindsAgree(Seams(roots, SUFFIXES))
  {
    forall s, u | s in Seams(roots, SUFFIXES) && u in Seams(roots, SUFFIXES) && s.attribute == u.attribute
      ensures s.kind == u.kind
    {
      SeamsFrom(roots, SUFFIXES, s);
      SeamsFrom(roots, SUFFIXES, u);
      hide SUFFIXES;
      var x :| x in SUFFIXES && s.attribute == x.attribute && s.kind == x.kind;
      var y :| y in SUFFIXES && u.attribute == y.attribute && u.kind == y.kind;
      SuffixKind(x);
      SuffixKind(y);
    }
  }

  lemma SuffixKind(x: Suffix)
    requires x in SUFFIXES
    ensures |x.attribute| > 1 && (x.kind == MAPPING <==> x.attribute[1] == 'R')
  {
  }
}
