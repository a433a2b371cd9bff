// What a stretch of Python may do to names, as a regular expression over the bindings it executes, and the
// bindings that may come last.
module RoutePaths {
  import opened Prelude

  /** What a name holds: a router with this prefix, something else, or nothing at all. */
  datatype What = Router(prefix: string) | Thing | Absent

  datatype Event = Event(name: string, what: What)

  /** What code does to a name: `APIRouter(...)`, another name's value, some other value, or `del`. */
  datatype Own = Makes(name: string, prefix: string) | Copies(name: string, from: string) | Assigns(name: string)
      | Clears(name: string)

  /** The values it may leave there; what any other expression evaluates to is open. */
  predicate Yields(o: Own, w: What) {
    match o
    case Makes(_, prefix) => w == Router(prefix)
    case Clears(_) => w == Absent
    case Assigns(_) => w != Absent
    case Copies(_, _) => true
  }

  datatype Path = Never | Skip | One(own: Own) | Then(first: Path, next: Path) | Or(left: Path, right: Path)
      | Star(round: Path)

  ghost predicate Takes(p: Path, ran: seq<Event>)
    decreases p, 0, 0
  {
    match p
    case Never => false
    case Skip => ran == []
    case One(o) => |ran| == 1 && ran[0].name == o.name && Yields(o, ran[0].what)
    case Then(a, b) => exists k :: 0 <= k <= |ran| && Takes(a, ran[..k]) && Takes(b, ran[k..])
    case Or(a, b) => Takes(a, ran) || Takes(b, ran)
    case Star(a) => exists n: nat :: Repeats(a, n, ran)
  }

  ghost predicate Repeats(p: Path, n: nat, ran: seq<Event>)
    decreases p, 1, n
  {
    if n == 0 then ran == []
    else exists k :: 0 <= k <= |ran| && Takes(p, ran[..k]) && Repeats(p, n - 1, ran[k..])
  }

  /** What the name holds at the end, if anything happened to it. */
  ghost function Last(ran: seq<Event>, name: string): Option<What> {
    if ran == [] then None
    else if ran[|ran| - 1].name == name then Some(ran[|ran| - 1].what)
    else Last(ran[..|ran| - 1], name)
  }

  lemma {:induction false} LastConcat(a: seq<Event>, b: seq<Event>, name: string)
    ensures Last(a + b, name) == if Last(b, name).Some? then Last(b, name) else Last(a, name)
  {
    if b == [] {
      assert a + b == a;
    } else {
      LastConcat(a, b[..|b| - 1], name);
      assert (a + b)[..|a + b| - 1] == a + b[..|b| - 1];
    }
  }

  lemma LastSplit(ran: seq<Event>, k: nat, name: string)
    requires k <= |ran|
    ensures Last(ran, name) == if Last(ran[k..], name).Some? then Last(ran[k..], name) else Last(ran[..k], name)
  {
    assert ran == ran[..k] + ran[k..];
    LastConcat(ran[..k], ran[k..], name);
  }

  lemma TakesThen(a: Path, b: Path, r: seq<Event>, s: seq<Event>)
    requires Takes(a, r) && Takes(b, s)
    ensures Takes(Then(a, b), r + s)
  {
    var ran := r + s;
    assert ran[..|r|] == r && ran[|r|..] == s;
  }

  lemma RepeatsMore(p: Path, n: nat, r: seq<Event>, s: seq<Event>)
    requires Takes(p, r) && Repeats(p, n, s)
    ensures Repeats(p, n + 1, r + s)
  {
    var ran := r + s;
    assert ran[..|r|] == r && ran[|r|..] == s;
  }

  // ---------------------------------------------------------------------------------
  // Interruption

  /** The same, given up at any moment. */
  function Partial(p: Path): Path {
    match p
    case Never => Skip
    case Skip => Skip
    case One(o) => Or(Skip, One(o))
    case Then(a, b) => Or(Partial(a), Then(a, Partial(b)))
    case Or(a, b) => Or(Partial(a), Partial(b))
    case Star(a) => Then(Star(a), Partial(a))
  }

  lemma {:induction false} Interrupted(p: Path, ran: seq<Event>, m: nat)
    requires Takes(p, ran) && m <= |ran|
    ensures Takes(Partial(p), ran[..m])
    decreases p, 1, 0
  {
    match p
    case Never =>
    case Skip =>
    case One(o) =>
      assert m == 1 ==> ran[..m] == ran;
    case Then(a, b) =>
      var k :| 0 <= k <= |ran| && Takes(a, ran[..k]) && Takes(b, ran[k..]);
      InterruptedThen(a, b, ran, k, m);
    case Or(a, b) =>
      if Takes(a, ran) {
        Interrupted(a, ran, m);
      } else {
        Interrupted(b, ran, m);
      }
    case Star(a) =>
      var n: nat :| Repeats(a, n, ran);
      InterruptedStar(a, n, ran, m);
  }

  lemma {:induction false} InterruptedThen(a: Path, b: Path, ran: seq<Event>, k: nat, m: nat)
    requires k <= |ran| && Takes(a, ran[..k]) && Takes(b, ran[k..]) && m <= |ran|
    ensures Takes(Or(Partial(a), Then(a, Partial(b))), ran[..m])
    decreases Then(a, b), 0, 0
  {
    hide *;
    Cut(ran, k, m);
    if m <= k {
      Interrupted(a, ran[..k], m);
      TakesLeft(Partial(a), Then(a, Partial(b)), ran[..m]);
    } else {
      Interrupted(b, ran[k..], m - k);
      TakesThen(a, Partial(b), ran[..k], ran[k..][..m - k]);
      TakesLeft(Then(a, Partial(b)), Partial(a), ran[..m]);
    }
  }

  lemma TakesLeft(a: Path, b: Path, ran: seq<Event>)
    requires Takes(a, ran)
    ensures Takes(Or(a, b), ran) && Takes(Or(b, a), ran)
  {
  }

  lemma {:induction false} InterruptedStar(a: Path, n: nat, ran: seq<Event>, m: nat)
    requires Repeats(a, n, ran) && m <= |ran|
    ensures Takes(Then(Star(a), Partial(a)), ran[..m])
    decreases a, 2, n
  {
    if n == 0 {
      Unfinished(Star(a));
      assert ran[..m] == [];
    } else {
      hide *;
      var k := FirstRound(a, n, ran);
      Cut(ran, k, m);
      if m <= k {
        Interrupted(a, ran[..k], m);
        InFirstRound(a, ran[..m]);
      } else {
        InterruptedStar(a, n - 1, ran[k..], m - k);
        OneRoundMore(a, ran[..k], ran[k..][..m - k]);
      }
    }
  }

  lemma FirstRound(a: Path, n: nat, ran: seq<Event>) returns (k: nat)
    requires n > 0 && Repeats(a, n, ran)
    ensures k <= |ran| && Takes(a, ran[..k]) && Repeats(a, n - 1, ran[k..])
  {
    hide Takes;
    k :| k <= |ran| && Takes(a, ran[..k]) && Repeats(a, n - 1, ran[k..]);
  }

  lemma InFirstRound(a: Path, ran: seq<Event>)
    requires Takes(Partial(a), ran)
    ensures Takes(Then(Star(a), Partial(a)), ran)
  {
    NoRounds(a);
    hide Takes, Partial;
    TakesThen(Star(a), Partial(a), [], ran);
    assert [] + ran == ran;
  }

  lemma NoRounds(a: Path)
    ensures Takes(Star(a), [])
  {
    assert Repeats(a, 0, []);
  }

  lemma OneRoundMore(a: Path, r: seq<Event>, s: seq<Event>)
    requires Takes(a, r) && Takes(Then(Star(a), Partial(a)), s)
    ensures Takes(Then(Star(a), Partial(a)), r + s)
  {
    hide *;
    var k := Parts(Star(a), Partial(a), s);
    var n := Rounds(a, s[..k]);
    RepeatsMore(a, n, r, s[..k]);
    StarTakes(a, n + 1, r + s[..k]);
    TakesThen(Star(a), Partial(a), r + s[..k], s[k..]);
    Regroup(r, s, k);
  }

  lemma Regroup(r: seq<Event>, s: seq<Event>, k: nat)
    requires k <= |s|
    ensures r + s[..k] + s[k..] == r + s
  {
  }

  lemma Cut(ran: seq<Event>, k: nat, m: nat)
    requires k <= |ran| && m <= |ran|
    ensures m <= k ==> ran[..k][..m] == ran[..m]
    ensures m > k ==> ran[..k] + ran[k..][..m - k] == ran[..m]
  {
  }

  lemma Parts(a: Path, b: Path, ran: seq<Event>) returns (k: nat)
    requires Takes(Then(a, b), ran)
    ensures k <= |ran| && Takes(a, ran[..k]) && Takes(b, ran[k..])
  {
    k :| k <= |ran| && Takes(a, ran[..k]) && Takes(b, ran[k..]);
  }

  lemma Rounds(a: Path, ran: seq<Event>) returns (n: nat)
    requires Takes(Star(a), ran)
    ensures Repeats(a, n, ran)
  {
    n :| Repeats(a, n, ran);
  }

  lemma StarTakes(a: Path, n: nat, ran: seq<Event>)
    requires Repeats(a, n, ran)
    ensures Takes(Star(a), ran)
  {
    hide Repeats;
  }

  /** Whatever it is, it can be given up before anything happens. */
  lemma {:induction false} Unfinished(p: Path)
    ensures Takes(Partial(p), [])
  {
    match p
    case Then(a, b) =>
      Unfinished(a);
    case Or(a, b) =>
      Unfinished(a);
    case Star(a) =>
      Unfinished(a);
      NoRounds(a);
      TakesThen(Star(a), Partial(a), [], []);
    case _ =>
  }

  // ---------------------------------------------------------------------------------
  // What may happen last

  datatype End = Untouched | By(own: Own)

  predicate CanFinish(p: Path) {
    match p
    case Never => false
    case Then(a, b) => CanFinish(a) && CanFinish(b)
    case Or(a, b) => CanFinish(a) || CanFinish(b)
    case _ => true
  }

  /** By what the name may be bound last: found without running anything. */
  function Ends(p: Path, name: string): set<End> {
    match p
    case Never => {}
    case Skip => {Untouched}
    case One(o) => if o.name == name then {By(o)} else {Untouched}
    case Then(a, b) =>
      if !CanFinish(a) then {}
      else if Untouched in Ends(b, name) then (Ends(b, name) - {Untouched}) + Ends(a, name)
      else Ends(b, name)
    case Or(a, b) => Ends(a, name) + Ends(b, name)
    case Star(a) => {Untouched} + Ends(a, name)
  }

  lemma {:induction false} EndsSome(p: Path, name: string)
    ensures CanFinish(p) <==> Ends(p, name) != {}
  {
    match p
    case Then(a, b) =>
      EndsSome(a, name);
      EndsSome(b, name);
    case Or(a, b) =>
      EndsSome(a, name);
      EndsSome(b, name);
    case Skip =>
      assert Untouched in Ends(p, name);
    case One(o) =>
      assert Untouched in Ends(p, name) || By(o) in Ends(p, name);
    case Star(a) =>
      assert Untouched in Ends(p, name);
    case Never =>
  }

  ghost predicate Explained(ends: set<End>, last: Option<What>) {
    match last
    case None => Untouched in ends
    case Some(w) => exists o :: By(o) in ends && Yields(o, w)
  }

  /** Every run ends as foreseen. */
  lemma {:induction false} EndsSound(p: Path, name: string, ran: seq<Event>)
    requires Takes(p, ran)
    ensures Explained(Ends(p, name), Last(ran, name)) && CanFinish(p)
    decreases p, 0, 0
  {
    match p
    case Never =>
    case Skip =>
    case One(o) =>
      assert ran[..0] == [];
      assert o.name == name ==> By(o) in Ends(p, name);
    case Then(a, b) =>
      var k :| 0 <= k <= |ran| && Takes(a, ran[..k]) && Takes(b, ran[k..]);
      EndsSound(a, name, ran[..k]);
      EndsSound(b, name, ran[k..]);
      ThenSound(a, b, name, ran, k);
    case Or(a, b) =>
      if Takes(a, ran) {
        EndsSound(a, name, ran);
      } else {
        EndsSound(b, name, ran);
      }
      hide Takes, Yields;
    case Star(a) =>
      var n: nat :| Repeats(a, n, ran);
      RoundsSound(a, n, name, ran);
  }

  lemma ThenSound(a: Path, b: Path, name: string, ran: seq<Event>, k: nat)
    requires k <= |ran| && CanFinish(a) && CanFinish(b)
    requires Explained(Ends(a, name), Last(ran[..k], name)) && Explained(Ends(b, name), Last(ran[k..], name))
    ensures Explained(Ends(Then(a, b), name), Last(ran, name)) && CanFinish(Then(a, b))
  {
    LastSplit(ran, k, name);
    hide Last, Yields;
  }

  lemma {:induction false} RoundsSound(a: Path, n: nat, name: string, ran: seq<Event>)
    requires Repeats(a, n, ran)
    ensures Explained({Untouched} + Ends(a, name), Last(ran, name))
    decreases a, 1, n
  {
    if n > 0 {
      var k :| 0 <= k <= |ran| && Takes(a, ran[..k]) && Repeats(a, n - 1, ran[k..]);
      EndsSound(a, name, ran[..k]);
      RoundsSound(a, n - 1, name, ran[k..]);
      LastSplit(ran, k, name);
      hide Last, Yields, Takes, Repeats, Ends;
    }
  }

  lemma {:induction false} SomeRun(p: Path) returns (ran: seq<Event>)
    requires CanFinish(p)
    ensures Takes(p, ran)
  {
    match p
    case Skip =>
      ran := [];
    case One(o) =>
      ran := [Event(o.name, match o case Makes(_, prefix) => Router(prefix) case Clears(_) => Absent case _ => Thing)];
    case Then(a, b) =>
      var r := SomeRun(a);
      var s := SomeRun(b);
      TakesThen(a, b, r, s);
      ran := r + s;
    case Or(a, b) =>
      if CanFinish(a) {
        ran := SomeRun(a);
      } else {
        ran := SomeRun(b);
      }
    case Star(a) =>
      NoRounds(a);
      ran := [];
  }

  ghost function Asked(e: End, w: What): Option<What> {
    if e == Untouched then None else Some(w)
  }

  /** Every end foreseen is the end of some run, with any value it may leave. */
  lemma {:induction false} EndsComplete(p: Path, name: string, e: End, w: What) returns (ran: seq<Event>)
    requires e in Ends(p, name) && (e.By? ==> Yields(e.own, w))
    ensures Takes(p, ran) && Last(ran, name) == Asked(e, w)
    decreases p, 1
  {
    match p
    case Skip =>
      ran := [];
    case One(o) =>
      ran := OneRun(o, name, e, w);
    case Then(a, b) =>
      ran := ThenRun(a, b, name, e, w);
    case Or(a, b) =>
      if e in Ends(a, name) {
        ran := EndsComplete(a, name, e, w);
      } else {
        ran := EndsComplete(b, name, e, w);
      }
    case Star(a) =>
      if e == Untouched {
        NoRounds(a);
        ran := [];
      } else {
        ran := EndsComplete(a, name, e, w);
        OneRound(a, ran);
      }
  }

  lemma OneRun(o: Own, name: string, e: End, w: What) returns (ran: seq<Event>)
    requires e in Ends(One(o), name) && (e.By? ==> Yields(e.own, w))
    ensures Takes(One(o), ran) && Last(ran, name) == Asked(e, w)
  {
    if o.name == name {
      ran := [Event(name, w)];
    } else {
      ran := SomeRun(One(o));
      assert ran[..0] == [];
    }
  }

  lemma OneRound(a: Path, ran: seq<Event>)
    requires Takes(a, ran)
    ensures Takes(Star(a), ran)
  {
    hide Takes;
    RepeatsMore(a, 0, ran, []);
    assert ran + [] == ran;
    StarTakes(a, 1, ran);
  }

  lemma {:induction false} ThenRun(a: Path, b: Path, name: string, e: End, w: What) returns (ran: seq<Event>)
    requires e in Ends(Then(a, b), name) && (e.By? ==> Yields(e.own, w))
    ensures Takes(Then(a, b), ran) && Last(ran, name) == Asked(e, w)
    decreases Then(a, b), 0
  {
    hide Takes, Last, Yields;
    var r, s;
    if e in Ends(b, name) && e != Untouched {
      r := SomeRun(a);
      s := EndsComplete(b, name, e, w);
    } else {
      r := EndsComplete(a, name, e, w);
      s := EndsComplete(b, name, Untouched, w);
    }
    ran := r + s;
    TakesThen(a, b, r, s);
    LastConcat(r, s, name);
  }
}
