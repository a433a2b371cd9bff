// Running the statements of a route module, as far as names and routers go: what a name holds when a statement
// is reached, and when that is the same in every run.
module RouteRuns {
  import opened Prelude
  import opened RouteConstants
  import opened RoutePaths
  import opened RouteWalk

  // ---------------------------------------------------------------------------------
  // What a statement itself does to names

  /** The names bound by the assignment expressions in an expression. */
  function NamedIn(e: Expr): (r: seq<Own>)
    ensures forall o | o in r :: o.Assigns?
    decreases e
  {
    match e
    case Attr(_, base, _) => NamedIn(base)
    case FString(parts) => NamedInParts(parts)
    case Add(left, right) => NamedIn(left) + NamedIn(right)
    case Call(func, args, keywords) => NamedIn(func) + NamedInAll(args) + NamedInKeywords(keywords)
    case Listing(elts) => NamedInAll(elts)
    case Named(id, value) => NamedIn(value) + [Assigns(id)]
    case Other(children) => NamedInAll(children)
    case _ => []
  }

  function NamedInAll(es: seq<Expr>): (r: seq<Own>)
    ensures forall o | o in r :: o.Assigns?
    decreases es
  {
    if es == [] then [] else NamedIn(es[0]) + NamedInAll(es[1..])
  }

  function NamedInParts(parts: seq<Part>): (r: seq<Own>)
    ensures forall o | o in r :: o.Assigns?
    decreases parts
  {
    if parts == [] then [] else NamedInPart(parts[0]) + NamedInParts(parts[1..])
  }

  function NamedInPart(p: Part): (r: seq<Own>)
    ensures forall o | o in r :: o.Assigns?
    decreases p
  {
    match p
    case Text(_) => []
    case Hole(value, _) => NamedIn(value)
  }

  function NamedInKeywords(ks: seq<Keyword>): (r: seq<Own>)
    ensures forall o | o in r :: o.Assigns?
    decreases ks
  {
    if ks == [] then [] else NamedInKeyword(ks[0]) + NamedInKeywords(ks[1..])
  }

  function NamedInKeyword(k: Keyword): (r: seq<Own>)
    ensures forall o | o in r :: o.Assigns?
    decreases k
  {
    NamedIn(k.value)
  }

  /** `name = value`; a name given its own value is left as it was. */
  function Given(repo: Repo, file: File, name: string, value: Expr): seq<Own> {
    if IsApiRouter(value) && PrefixOf(repo, file, value).Ok? then [Makes(name, PrefixOf(repo, file, value).value)]
    else if value == Name(name) then []
    else if value.Name? then [Copies(name, value.id)]
    else [Assigns(name)]
  }

  /** One target; the names inside a tuple are given parts of the value. */
  function TargetOwns(repo: Repo, file: File, target: Expr, value: Expr): seq<Own> {
    if target.Name? then Given(repo, file, target.id, value) else NamedIn(target) + Unpacked(target)
  }

  function Unpacked(target: Expr): (r: seq<Own>)
    ensures forall o | o in r :: o.Assigns?
    decreases target
  {
    match target
    case Name(id) => [Assigns(id)]
    case Listing(elts) => UnpackedAll(elts)
    case _ => []
  }

  function UnpackedAll(targets: seq<Expr>): (r: seq<Own>)
    ensures forall o | o in r :: o.Assigns?
    decreases targets
  {
    if targets == [] then [] else Unpacked(targets[0]) + UnpackedAll(targets[1..])
  }

  function TargetsOwns(repo: Repo, file: File, targets: seq<Expr>, value: Expr): seq<Own> {
    if targets == [] then []
    else TargetOwns(repo, file, targets[0], value) + TargetsOwns(repo, file, targets[1..], value)
  }

  function AssignsAll(names: seq<string>): seq<Own> {
    seq(|names|, i requires 0 <= i < |names| => Assigns(names[i]))
  }

  function ClearsAll(names: seq<string>): seq<Own> {
    seq(|names|, i requires 0 <= i < |names| => Clears(names[i]))
  }

  /** In order; `Block` and `Leave` are control flow. */
  function Owns(repo: Repo, file: File, st: Stmt): seq<Own> {
    match st
    case Assign(targets, value) => NamedIn(value) + TargetsOwns(repo, file, targets, value)
    case AnnAssign(target, annotation, Some(value)) =>
      NamedIn(value) + NamedIn(annotation) + TargetOwns(repo, file, target, value)
    case AnnAssign(target, annotation, None) => NamedIn(target) + NamedIn(annotation)
    case FunctionDef(name, decorators, header, _) => NamedInAll(decorators) + NamedInAll(header) + [Assigns(name)]
    case ClassDef(name, header, _) => NamedInAll(header) + [Assigns(name)]
    case ExprStmt(value) => NamedIn(value)
    case Plain(header, binds, clears) => NamedInAll(header) + AssignsAll(binds) + ClearsAll(clears)
    case _ => []
  }

  // ---------------------------------------------------------------------------------
  // Control flow

  /** Through to the end, or up to a `break` or `continue` of the loop around. */
  datatype Way = Through | Up(jump: Jump)

  function InOrder(owns: seq<Own>): Path {
    if owns == [] then Skip else Then(One(owns[0]), InOrder(owns[1..]))
  }

  function FlowOfStmts(repo: Repo, file: File, body: seq<Stmt>, way: Way): Path
    decreases body, 1
  {
    if body == [] then if way == Through then Skip else Never
    else
      var through := Then(FlowOf(repo, file, body[0], Through), FlowOfStmts(repo, file, body[1..], way));
      if way == Through then through else Or(FlowOf(repo, file, body[0], way), through)
  }

  /** Any branch may be taken, any loop run any number of times, and a guarded suite interrupted at any moment. */
  function FlowOf(repo: Repo, file: File, st: Stmt, way: Way): Path
    decreases st, 1
  {
    match st
    case Block(_, _, _, _) => FlowOfBlock(repo, file, st, way)
    case Leave(jump, header) => if way == Up(jump) then InOrder(NamedInAll(header)) else Never
    case _ => if way == Through then InOrder(Owns(repo, file, st)) else Never
  }

  function FlowOfBlock(repo: Repo, file: File, st: Stmt, way: Way): Path
    requires st.Block?
    decreases st, 0
  {
    var head := InOrder(NamedInAll(st.header));
    var body, orelse := FlowOfSuites(repo, file, st.blocks, Body, way),
      FlowOfSuites(repo, file, st.blocks, Orelse, way);
    var whole := FlowOfSuites(repo, file, st.blocks, Body, Through);
    match st.flow
    case If => Then(head, Or(body, orelse))
    case Match => Then(head, Or(if way == Through then Skip else Never,
      FlowOfSuites(repo, file, st.unwalked, Body, way)))
    case With => Then(head, if way == Through then Or(body, Partial(body)) else body)
    case Loop =>
      var next := FlowOfSuites(repo, file, st.blocks, Body, Up(Continue));
      var broken := FlowOfSuites(repo, file, st.blocks, Body, Up(Break));
      Then(Star(Then(head, Or(whole, next))), Then(head, if way == Through then Or(orelse, broken) else orelse))
    case Try =>
      var handled := Then(Partial(whole), FlowOfSuites(repo, file, st.blocks, Handling, way));
      var kept := Or(Then(whole, orelse), handled);
      var done := Then(if way == Through then kept else Or(body, kept),
        FlowOfSuites(repo, file, st.blocks, Finally, Through));
      if way == Through then done
      else
        var tried := Or(whole, Then(Partial(whole), FlowOfSuites(repo, file, st.blocks, Handling, Through)));
        var ended := Then(tried, FlowOfSuites(repo, file, st.blocks, Orelse, Through));
        Or(done, Then(Or(Partial(tried), Partial(ended)), FlowOfSuites(repo, file, st.blocks, Finally, way)))
  }

  /** One of the suites of this role. */
  function FlowOfSuites(repo: Repo, file: File, suites: seq<Suite>, role: Role, way: Way): Path
    decreases suites, 0
  {
    if suites == [] then Never
    else
      var others := FlowOfSuites(repo, file, suites[1..], role, way);
      if suites[0].role == role then Or(FlowOfSuite(repo, file, suites[0], way), others) else others
  }

  function FlowOfSuite(repo: Repo, file: File, suite: Suite, way: Way): Path
    decreases suite, 2
  {
    Then(InOrder(AssignsAll(suite.takes)),
      Then(FlowOfStmts(repo, file, suite.body, way), InOrder(ClearsAll(suite.drops))))
  }

  // ---------------------------------------------------------------------------------
  // Reaching a statement of a body

  /** What names hold when a body is entered. */
  type Env = string -> What

  ghost function Live(env: Env, ran: seq<Event>, name: string): What {
    match Last(ran, name)
    case None => env(name)
    case Some(w) => w
  }

  /** A simple statement of the body itself gives a name another's value exactly. */
  ghost predicate Plays(owns: seq<Own>, env: Env, before: seq<Event>, ran: seq<Event>) {
    |ran| == |owns| && forall k | 0 <= k < |owns| :: Played(owns[k], env, before, ran[k])
  }

  ghost predicate Played(o: Own, env: Env, before: seq<Event>, e: Event) {
    e.name == o.name && (if o.Copies? then e.what == Live(env, before, o.from) else Yields(o, e.what))
  }

  predicate IsFlow(st: Stmt) {
    st.Block? || st.Leave?
  }

  ghost predicate Does(repo: Repo, file: File, st: Stmt, env: Env, before: seq<Event>, ran: seq<Event>) {
    if IsFlow(st) then Takes(FlowOf(repo, file, st, Through), ran) else Plays(Owns(repo, file, st), env, before, ran)
  }

  /** `ran`: what some run binds that gets past all these statements. */
  ghost predicate Reaches(repo: Repo, file: File, body: seq<Stmt>, env: Env, ran: seq<Event>)
    decreases |body|
  {
    if body == [] then ran == []
    else
      var n := |body| - 1;
      exists k :: 0 <= k <= |ran| && Reaches(repo, file, body[..n], env, ran[..k])
               && Does(repo, file, body[n], env, ran[..k], ran[k..])
  }

  // ---------------------------------------------------------------------------------
  // What is the same in every run

  function LastOwn(owns: seq<Own>, name: string): Option<Own> {
    if owns == [] then None
    else if owns[|owns| - 1].name == name then Some(owns[|owns| - 1])
    else LastOwn(owns[..|owns| - 1], name)
  }

  /** It leaves this value and no other. */
  predicate Fixed(o: Own, w: What) {
    match o
    case Makes(_, prefix) => w == Router(prefix)
    case Clears(_) => w == Absent
    case _ => false
  }

  /** Read off the statements, last first: past them, the name holds this value. */
  ghost predicate Sure(repo: Repo, file: File, body: seq<Stmt>, env: Env, name: string, w: What)
    decreases |body|
  {
    if body == [] then env(name) == w
    else
      var n := |body| - 1;
      if IsFlow(body[n]) then
        var ends := Ends(FlowOf(repo, file, body[n], Through), name);
        && (forall e | e in ends && e.By? :: Fixed(e.own, w))
        && (Untouched in ends ==> Sure(repo, file, body[..n], env, name, w))
      else
        match LastOwn(Owns(repo, file, body[n]), name)
        case None => Sure(repo, file, body[..n], env, name, w)
        case Some(Copies(_, from)) => Sure(repo, file, body[..n], env, from, w)
        case Some(o) => Fixed(o, w)
  }

  /** No statement stops every run. */
  predicate Finishes(repo: Repo, file: File, body: seq<Stmt>) {
    forall st | st in body :: IsFlow(st) ==> CanFinish(FlowOf(repo, file, st, Through))
  }

  lemma {:induction false} PlaysLast(owns: seq<Own>, env: Env, before: seq<Event>, ran: seq<Event>, name: string)
    requires Plays(owns, env, before, ran)
    ensures match LastOwn(owns, name)
            case None => Last(ran, name) == None
            case Some(o) => exists e :: Played(o, env, before, e) && Last(ran, name) == Some(e.what)
  {
    if owns != [] {
      var n := |owns| - 1;
      assert Played(owns[n], env, before, ran[n]);
      assert forall k | 0 <= k < n :: Played(owns[k], env, before, ran[k]);
      if owns[n].name != name {
        PlaysLast(owns[..n], env, before, ran[..n], name);
      }
    }
  }

  lemma LiveSplit(env: Env, ran: seq<Event>, k: nat, name: string)
    requires k <= |ran|
    ensures Live(env, ran, name) == if Last(ran[k..], name).Some? then Last(ran[k..], name).value
      else Live(env, ran[..k], name)
  {
    LastSplit(ran, k, name);
  }

  lemma ReachesSplit(repo: Repo, file: File, body: seq<Stmt>, env: Env, ran: seq<Event>) returns (k: nat)
    requires body != [] && Reaches(repo, file, body, env, ran)
    ensures var n := |body| - 1;
      k <= |ran| && Reaches(repo, file, body[..n], env, ran[..k]) && Does(repo, file, body[n], env, ran[..k], ran[k..])
  {
    hide Does;
    var n := |body| - 1;
    k :| k <= |ran| && Reaches(repo, file, body[..n], env, ran[..k])
      && Does(repo, file, body[n], env, ran[..k], ran[k..]);
  }

  lemma ReachesMore(repo: Repo, file: File, body: seq<Stmt>, env: Env, ran: seq<Event>, more: seq<Event>)
    requires body != [] && Reaches(repo, file, body[..|body| - 1], env, ran)
    requires Does(repo, file, body[|body| - 1], env, ran, more)
    ensures Reaches(repo, file, body, env, ran + more)
  {
    hide Does;
    var all, n := ran + more, |body| - 1;
    assert all[..|ran|] == ran && all[|ran|..] == more;
    assert Reaches(repo, file, body[..n], env, all[..|ran|])
      && Does(repo, file, body[n], env, all[..|ran|], all[|ran|..]);
  }

  lemma DoesFinish(repo: Repo, file: File, st: Stmt, env: Env, before: seq<Event>, ran: seq<Event>)
    requires Does(repo, file, st, env, before, ran)
    ensures IsFlow(st) ==> CanFinish(FlowOf(repo, file, st, Through))
  {
    if IsFlow(st) {
      EndsSound(FlowOf(repo, file, st, Through), "", ran);
    }
  }

  lemma {:induction false} ReachedFinishes(repo: Repo, file: File, body: seq<Stmt>, env: Env, ran: seq<Event>)
    requires Reaches(repo, file, body, env, ran)
    ensures Finishes(repo, file, body)
    decreases |body|
  {
    if body == [] {
      hide FlowOf, CanFinish;
    } else {
      hide *;
      var n := |body| - 1;
      var k := ReachesSplit(repo, file, body, env, ran);
      ReachedFinishes(repo, file, body[..n], env, ran[..k]);
      DoesFinish(repo, file, body[n], env, ran[..k], ran[k..]);
      FinishesMore(repo, file, body);
    }
  }

  lemma FinishesMore(repo: Repo, file: File, body: seq<Stmt>)
    requires body != [] && Finishes(repo, file, body[..|body| - 1])
    requires var st := body[|body| - 1]; IsFlow(st) ==> CanFinish(FlowOf(repo, file, st, Through))
    ensures Finishes(repo, file, body)
  {
    hide FlowOf, CanFinish, IsFlow;
    var n := |body| - 1;
    forall st | st in body ensures st in body[..n] || st == body[n] {
      assert body == body[..n] + [body[n]];
    }
  }

  /** What a control-flow statement leaves of a name: one of its ends, or what was there. */
  lemma FlowHolds(repo: Repo, file: File, st: Stmt, env: Env, ran: seq<Event>, k: nat, name: string, w: What)
    requires k <= |ran| && IsFlow(st) && Takes(FlowOf(repo, file, st, Through), ran[k..])
    requires var ends := Ends(FlowOf(repo, file, st, Through), name);
      && (forall e | e in ends && e.By? :: Fixed(e.own, w))
      && (Untouched in ends ==> Live(env, ran[..k], name) == w)
    ensures Live(env, ran, name) == w
  {
    EndsSound(FlowOf(repo, file, st, Through), name, ran[k..]);
    LiveSplit(env, ran, k, name);
    hide Takes, FlowOf, Ends, Live, Last;
    var ends := Ends(FlowOf(repo, file, st, Through), name);
    if Last(ran[k..], name).Some? {
      var o :| By(o) in ends && Yields(o, Last(ran[k..], name).value);
      assert Fixed(By(o).own, w);
    }
  }

  lemma {:induction false} SureHolds(repo: Repo, file: File, body: seq<Stmt>, env: Env, name: string, w: What,
      ran: seq<Event>)
    requires Reaches(repo, file, body, env, ran) && Sure(repo, file, body, env, name, w)
    ensures Live(env, ran, name) == w
    decreases |body|
  {
    if body != [] {
      var n := |body| - 1;
      var st := body[n];
      var k := ReachesSplit(repo, file, body, env, ran);
      hide Reaches, Takes, FlowOf, Ends, Live, Plays;
      if IsFlow(st) {
        if Untouched in Ends(FlowOf(repo, file, st, Through), name) {
          SureHolds(repo, file, body[..n], env, name, w, ran[..k]);
        }
        FlowHolds(repo, file, st, env, ran, k, name, w);
      } else {
        PlaysLast(Owns(repo, file, st), env, ran[..k], ran[k..], name);
        LiveSplit(env, ran, k, name);
        match LastOwn(Owns(repo, file, st), name)
        case None => SureHolds(repo, file, body[..n], env, name, w, ran[..k]);
        case Some(Copies(_, from)) => SureHolds(repo, file, body[..n], env, from, w, ran[..k]);
        case Some(o) =>
      }
    }
  }

  lemma {:induction false} SomePlay(owns: seq<Own>, env: Env, before: seq<Event>) returns (ran: seq<Event>)
    ensures Plays(owns, env, before, ran)
  {
    if owns == [] {
      ran := [];
    } else {
      var n := |owns| - 1;
      var earlier := SomePlay(owns[..n], env, before);
      var e := SomeEvent(owns[n], env, before);
      ran := earlier + [e];
      PlaysMore(owns, env, before, earlier, e);
    }
  }

  lemma PlaysMore(owns: seq<Own>, env: Env, before: seq<Event>, ran: seq<Event>, e: Event)
    requires owns != [] && Plays(owns[..|owns| - 1], env, before, ran) && Played(owns[|owns| - 1], env, before, e)
    ensures Plays(owns, env, before, ran + [e])
  {
    var n := |owns| - 1;
    hide Played;
    forall k | 0 <= k < |owns| ensures Played(owns[k], env, before, (ran + [e])[k]) {
      if k < n {
        assert Played(owns[..n][k], env, before, ran[k]);
      }
    }
  }

  lemma SomeEvent(o: Own, env: Env, before: seq<Event>) returns (e: Event)
    ensures Played(o, env, before, e)
  {
    match o
    case Makes(name, prefix) => e := Event(name, Router(prefix));
    case Copies(name, from) => e := Event(name, Live(env, before, from));
    case Assigns(name) => e := Event(name, Thing);
    case Clears(name) => e := Event(name, Absent);
  }

  lemma SomeDoing(repo: Repo, file: File, st: Stmt, env: Env, before: seq<Event>) returns (ran: seq<Event>)
    requires IsFlow(st) ==> CanFinish(FlowOf(repo, file, st, Through))
    ensures Does(repo, file, st, env, before, ran)
  {
    hide FlowOf, Takes, Plays, CanFinish;
    if IsFlow(st) {
      ran := SomeRun(FlowOf(repo, file, st, Through));
    } else {
      ran := SomePlay(Owns(repo, file, st), env, before);
    }
  }

  lemma FinishesParts(repo: Repo, file: File, body: seq<Stmt>)
    requires body != [] && Finishes(repo, file, body)
    ensures Finishes(repo, file, body[..|body| - 1])
    ensures var st := body[|body| - 1]; IsFlow(st) ==> CanFinish(FlowOf(repo, file, st, Through))
  {
    hide FlowOf, CanFinish;
  }

  lemma {:induction false} SomeReach(repo: Repo, file: File, body: seq<Stmt>, env: Env) returns (ran: seq<Event>)
    requires Finishes(repo, file, body)
    ensures Reaches(repo, file, body, env, ran)
    decreases |body|
  {
    if body == [] {
      ran := [];
    } else {
      FinishesParts(repo, file, body);
      hide Finishes, FlowOf, CanFinish, Does, Reaches;
      var before := SomeReach(repo, file, body[..|body| - 1], env);
      var more := SomeDoing(repo, file, body[|body| - 1], env, before);
      ReachesMore(repo, file, body, env, before, more);
      ran := before + more;
    }
  }

  /** Where a simple statement is the last to bind the name, its value is one it may leave. */
  lemma {:induction false} PlayEnding(owns: seq<Own>, env: Env, before: seq<Event>, name: string, e: Event)
    returns (ran: seq<Event>)
    requires LastOwn(owns, name).Some? && Played(LastOwn(owns, name).value, env, before, e)
    ensures Plays(owns, env, before, ran) && Last(ran, name) == Some(e.what)
  {
    var n := |owns| - 1;
    var earlier, last;
    if owns[n].name == name {
      earlier := SomePlay(owns[..n], env, before);
      last := e;
    } else {
      earlier := PlayEnding(owns[..n], env, before, name, e);
      last := SomeEvent(owns[n], env, before);
    }
    hide Plays;
    ran := earlier + [last];
    PlaysMore(owns, env, before, earlier, last);
    assert ran[..|ran| - 1] == earlier;
  }

  lemma {:induction false} LastOwnNames(owns: seq<Own>, name: string)
    ensures LastOwn(owns, name).Some? ==> LastOwn(owns, name).value.name == name && LastOwn(owns, name).value in owns
  {
    if owns != [] && owns[|owns| - 1].name != name {
      LastOwnNames(owns[..|owns| - 1], name);
    }
  }

  /** A value it may leave that is not this one. */
  lemma Unfixed(o: Own, w: What) returns (v: What)
    requires !Fixed(o, w)
    ensures Yields(o, v) && v != w
  {
    match o
    case Makes(_, prefix) => v := Router(prefix);
    case Clears(_) => v := Absent;
    case _ => v := if w == Thing then Router("") else Thing;
  }

  /** A run in which the name holds something else. */
  lemma {:induction false} WrongRun(repo: Repo, file: File, body: seq<Stmt>, env: Env, name: string, w: What)
    returns (ran: seq<Event>)
    requires Finishes(repo, file, body) && !Sure(repo, file, body, env, name, w)
    ensures Reaches(repo, file, body, env, ran) && Live(env, ran, name) != w
    decreases |body|
  {
    if body == [] {
      ran := [];
    } else {
      var n := |body| - 1;
      var st := body[n];
      FinishesParts(repo, file, body);
      var before, more;
      hide Finishes, Reaches, Takes, FlowOf, Ends, Live, Plays, CanFinish;
      if IsFlow(st) {
        before, more := WrongFlow(repo, file, body, env, name, w);
      } else {
        before, more := WrongPlay(repo, file, body, env, name, w);
      }
      ReachesMore(repo, file, body, env, before, more);
      ran := before + more;
    }
  }

  lemma {:induction false} WrongFlow(repo: Repo, file: File, body: seq<Stmt>, env: Env, name: string, w: What)
    returns (before: seq<Event>, more: seq<Event>)
    requires body != [] && IsFlow(body[|body| - 1]) && !Sure(repo, file, body, env, name, w)
    requires Finishes(repo, file, body[..|body| - 1])
    ensures Reaches(repo, file, body[..|body| - 1], env, before)
    ensures Does(repo, file, body[|body| - 1], env, before, more) && Live(env, before + more, name) != w
    decreases |body|, 0
  {
    var n := |body| - 1;
    var path := FlowOf(repo, file, body[n], Through);
    hide Finishes, Reaches, Takes, FlowOf, Ends, Live, Plays;
    if e :| e in Ends(path, name) && e.By? && !Fixed(e.own, w) {
      var v := Unfixed(e.own, w);
      before := SomeReach(repo, file, body[..n], env);
      more := EndsComplete(path, name, e, v);
    } else {
      before := WrongRun(repo, file, body[..n], env, name, w);
      more := EndsComplete(path, name, Untouched, w);
    }
    LiveThen(env, before, more, name);
  }

  lemma LiveThen(env: Env, before: seq<Event>, more: seq<Event>, name: string)
    ensures Live(env, before + more, name) == if Last(more, name).Some? then Last(more, name).value
      else Live(env, before, name)
  {
    LastConcat(before, more, name);
  }

  lemma {:induction false} WrongPlay(repo: Repo, file: File, body: seq<Stmt>, env: Env, name: string, w: What)
    returns (before: seq<Event>, more: seq<Event>)
    requires body != [] && !IsFlow(body[|body| - 1]) && !Sure(repo, file, body, env, name, w)
    requires Finishes(repo, file, body[..|body| - 1])
    ensures Reaches(repo, file, body[..|body| - 1], env, before)
    ensures Does(repo, file, body[|body| - 1], env, before, more) && Live(env, before + more, name) != w
    decreases |body|, 0
  {
    var n := |body| - 1;
    var owns := Owns(repo, file, body[n]);
    hide Finishes, Reaches, Live, Plays, LastOwn, Owns;
    match LastOwn(owns, name) {
      case None => before := WrongRun(repo, file, body[..n], env, name, w);
      case Some(Copies(_, from)) => before := WrongRun(repo, file, body[..n], env, from, w);
      case Some(o) => before := SomeReach(repo, file, body[..n], env);
    }
    more := PlayWrong(owns, env, before, name, w);
  }

  /** The statement need not make the name hold this. */
  ghost predicate Open(owns: seq<Own>, env: Env, before: seq<Event>, name: string, w: What) {
    match LastOwn(owns, name)
    case None => Live(env, before, name) != w
    case Some(Copies(_, from)) => Live(env, before, from) != w
    case Some(o) => !Fixed(o, w)
  }

  lemma PlayWrong(owns: seq<Own>, env: Env, before: seq<Event>, name: string, w: What) returns (more: seq<Event>)
    requires Open(owns, env, before, name, w)
    ensures Plays(owns, env, before, more) && Live(env, before + more, name) != w
  {
    hide Plays, LastOwn, Live, Last;
    if LastOwn(owns, name).None? {
      more := SomePlay(owns, env, before);
      PlaysLast(owns, env, before, more, name);
    } else {
      LastOwnNames(owns, name);
      var e := OpenEvent(LastOwn(owns, name).value, env, before, w);
      more := PlayEnding(owns, env, before, name, e);
    }
    LiveThen(env, before, more, name);
  }

  lemma OpenEvent(o: Own, env: Env, before: seq<Event>, w: What) returns (e: Event)
    requires if o.Copies? then Live(env, before, o.from) != w else !Fixed(o, w)
    ensures Played(o, env, before, e) && e.what != w
  {
    if o.Copies? {
      e := Event(o.name, Live(env, before, o.from));
    } else {
      var v := Unfixed(o, w);
      e := Event(o.name, v);
    }
  }

  /** In every run that gets past these statements the name holds this value. */
  ghost predicate Always(repo: Repo, file: File, body: seq<Stmt>, env: Env, name: string, w: What) {
    forall ran | Reaches(repo, file, body, env, ran) :: Live(env, ran, name) == w
  }

  /** That can be read off the statements, exactly. */
  lemma AlwaysIff(repo: Repo, file: File, body: seq<Stmt>, env: Env, name: string, w: What)
    ensures Always(repo, file, body, env, name, w)
      <==> (Finishes(repo, file, body) ==> Sure(repo, file, body, env, name, w))
  {
    hide Reaches, Live, Sure, Finishes;
    if Finishes(repo, file, body) && !Sure(repo, file, body, env, name, w) {
      var ran := WrongRun(repo, file, body, env, name, w);
      assert Reaches(repo, file, body, env, ran) && Live(env, ran, name) != w;
    }
    forall ran | Reaches(repo, file, body, env, ran)
      ensures Finishes(repo, file, body)
      ensures Sure(repo, file, body, env, name, w) ==> Live(env, ran, name) == w
    {
      ReachedFinishes(repo, file, body, env, ran);
      if Sure(repo, file, body, env, name, w) {
        SureHolds(repo, file, body, env, name, w, ran);
      }
    }
  }

  // ---------------------------------------------------------------------------------
  // Names of a function's own

  function NamesOf(owns: seq<Own>): set<string> {
    set o | o in owns :: o.name
  }

  /** The names a statement list binds anywhere, definitions inside it apart. */
  function Locals(repo: Repo, file: File, body: seq<Stmt>): set<string>
    decreases body, 1
  {
    if body == [] then {} else LocalsOf(repo, file, body[0]) + Locals(repo, file, body[1..])
  }

  function LocalsOf(repo: Repo, file: File, st: Stmt): set<string>
    decreases st, 0
  {
    NamesOf(Owns(repo, file, st)) +
    match st
    case Assign(targets, _) => NamesOf(UnpackedAll(targets))
    case AnnAssign(target, _, _) => NamesOf(Unpacked(target))
    case Leave(_, header) => NamesOf(NamedInAll(header))
    case Block(_, header, blocks, unwalked) =>
      NamesOf(NamedInAll(header)) + LocalsOfSuites(repo, file, blocks) + LocalsOfSuites(repo, file, unwalked)
    case _ => {}
  }

  function LocalsOfSuites(repo: Repo, file: File, suites: seq<Suite>): set<string>
    decreases suites, 0
  {
    if suites == [] then {} else LocalsOfSuite(repo, file, suites[0]) + LocalsOfSuites(repo, file, suites[1..])
  }

  function LocalsOfSuite(repo: Repo, file: File, suite: Suite): set<string>
    decreases suite, 2
  {
    NamesOf(AssignsAll(suite.takes)) + NamesOf(ClearsAll(suite.drops)) + Locals(repo, file, suite.body)
  }

  /** Entering a function: what it binds anywhere is its own, and not there yet. */
  ghost function FunctionEnv(repo: Repo, file: File, outer: Env, body: seq<Stmt>): Env {
    name => if name in Locals(repo, file, body) then Absent else outer(name)
  }
}
