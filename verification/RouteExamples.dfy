// Modules the census misreads: two reported under a prefix their route does not have, four not reported at all.
module RouteExamples {
  import opened Letters
  import opened Prelude
  import opened RouteAnswers
  import opened RouteCensus
  import opened RouteConstants
  import opened RoutePaths
  import opened RouteRebinding
  import opened RouteRuns
  import opened RouteWalk

  /** `APIRouter(prefix=p)` */
  function Made(p: string): Expr {
    Call(Name("APIRouter"), [], [Keyword(Some("prefix"), Str(p))])
  }

  /** `name = APIRouter(prefix=p)` */
  function RouterNamed(name: string, p: string): Stmt {
    Assign([Name(name)], Made(p))
  }

  /** `@base.get("/x")` over `def f` */
  function Served(base: Expr): Stmt {
    FunctionDef("f", [Getting(base)], [], [])
  }

  function Getting(base: Expr): Expr {
    Call(Attr(0, base, "get"), [Str("/x")], [])
  }

  // ---------------------------------------------------------------------------------
  // Reading such modules

  lemma MadeIs(repo: Repo, file: File, p: string)
    ensures IsApiRouter(Made(p)) && PrefixOf(repo, file, Made(p)) == Ok(p) && SitesIn(Made(p)) == []
      && NamedIn(Made(p)) == []
  {
    var ks := [Keyword(Some("prefix"), Str(p))];
    assert ks[1..] == [];
    assert KeywordValue(ks, "prefix") == Some(Str(p));
    assert SitesInKeywords(ks) == SitesInKeyword(ks[0]) + SitesInKeywords([]) == [];
    assert NamedInKeywords(ks) == NamedInKeyword(ks[0]) + NamedInKeywords([]) == [];
  }

  lemma RouterIs(repo: Repo, file: File, name: string, p: string)
    ensures BindingsOf(repo, file, RouterNamed(name, p)) == [Binding(name, p)]
      && PrefixRead(repo, file, RouterNamed(name, p))
    ensures SitesOfStmt(RouterNamed(name, p)) == [] && Owns(repo, file, RouterNamed(name, p)) == [Makes(name, p)]
    ensures BoundBy(RouterNamed(name, p)) == {name}
  {
    MadeIs(repo, file, p);
    hide IsApiRouter, PrefixOf, Made, SitesIn, NamedIn;
    var targets := [Name(name)];
    assert targets[1..] == [];
    assert TargetBindings(targets, p) == [Binding(name, p)] + TargetBindings([], p);
    assert TargetNames(targets) == {name} + TargetNames([]);
    assert SitesInAll(targets) == SitesIn(Name(name)) + SitesInAll([]);
    assert TargetsOwns(repo, file, targets, Made(p)) == TargetOwns(repo, file, targets[0], Made(p)) +
      TargetsOwns(repo, file, [], Made(p));
    NameIs(Name(name));
  }

  lemma NameIs(e: Expr)
    requires e.Name?
    ensures SitesIn(e) == [] && NamedIn(e) == []
  {
  }

  /** `name = other` */
  lemma CopyIs(repo: Repo, file: File, name: string, other: string)
    requires name != other
    ensures var st := Assign([Name(name)], Name(other));
      && BindingsOf(repo, file, st) == [] && PrefixRead(repo, file, st) && SitesOfStmt(st) == []
      && Owns(repo, file, st) == [Copies(name, other)] && BoundBy(st) == {}
  {
    var targets := [Name(name)];
    assert targets[1..] == [];
    assert SitesInAll(targets) == SitesIn(Name(name)) + SitesInAll([]);
    assert TargetsOwns(repo, file, targets, Name(other)) == TargetOwns(repo, file, targets[0], Name(other)) +
      TargetsOwns(repo, file, [], Name(other));
  }

  /** An assignment with nothing in it the census would refuse. */
  ghost predicate Simple(repo: Repo, file: File, st: Stmt) {
    st.Assign? && SitesOfStmt(st) == [] && PrefixRead(repo, file, st)
  }

  ghost predicate AllSimple(repo: Repo, file: File, body: seq<Stmt>) {
    forall st | st in body :: Simple(repo, file, st)
  }

  lemma Assigning(repo: Repo, file: File, body: seq<Stmt>, trail: Trail, scope: string)
    requires body != [] && Simple(repo, file, body[0])
    ensures UsesOfStmts(repo, file, body, trail, scope) == UsesOfStmts(repo, file, body[1..], trail, scope)
    ensures CleanStmts(repo, file, body, trail) <==> CleanStmts(repo, file, body[1..], trail)
    ensures SitesOfBody(body) == SitesOfBody(body[1..])
  {
    assert trail + [] == trail;
    assert UsesOfStmt(repo, file, body[0], trail, scope) == [];
    assert CleanStmt(repo, file, body[0], trail) && Left(repo, file, body[0]) == [];
    hide SitesOfStmt, UsesOfStmt, CleanStmt, Left;
  }

  lemma {:induction false} SimpleTail(repo: Repo, file: File, body: seq<Stmt>, trail: Trail, scope: string)
    requires AllSimple(repo, file, body)
    ensures UsesOfStmts(repo, file, body, trail, scope) == [] && CleanStmts(repo, file, body, trail)
      && SitesOfBody(body) == []
  {
    if body != [] {
      assert body[0] in body && forall st | st in body[1..] :: st in body;
      hide Simple;
      Assigning(repo, file, body, trail, scope);
      SimpleTail(repo, file, body[1..], trail, scope);
    }
  }

  lemma Serving(repo: Repo, file: File, base: Expr, rest: seq<Stmt>, trail: Trail, scope: string)
    requires AllSimple(repo, file, rest)
    ensures var body := [Served(base)] + rest;
      && UsesOfStmts(repo, file, body, trail, scope) == UseAt(Getting(base), true, scope + "." + "f", trail)
      && CleanStmts(repo, file, body, trail) && SitesOfBody(body) == SitesIn(Getting(base))
  {
    var body := [Served(base)] + rest;
    assert body[1..] == rest && body[0] == Served(base) && trail + [] == trail;
    assert Left(repo, file, Served(base)) == [];
    SimpleTail(repo, file, rest, trail, scope);
    ServedAlone(repo, file, base, trail, scope);
    hide UsesOfStmt, CleanStmt, SitesOfStmt, Getting, Served, UseAt, Left, SitesIn;
  }

  lemma ServedAlone(repo: Repo, file: File, base: Expr, trail: Trail, scope: string)
    ensures UsesOfStmt(repo, file, Served(base), trail, scope) == UseAt(Getting(base), true, scope + "." + "f", trail)
    ensures OwnUses(Served(base), trail, scope) == UseAt(Getting(base), true, scope + "." + "f", trail)
    ensures CleanStmt(repo, file, Served(base), trail) && SitesOfStmt(Served(base)) == SitesIn(Getting(base))
  {
    var call := Getting(base);
    assert [call][1..] == [];
    assert DecoratorUses([call], scope + "." + "f", trail)
        == UseAt(call, true, scope + "." + "f", trail) + DecoratorUses([], scope + "." + "f", trail);
    assert UsesOfBody(repo, file, [], trail, scope + "." + "f") == [];
    assert SitesInAll([call]) == SitesIn(call) + SitesInAll([]);
    assert CleanBody(repo, file, [], trail) && NoneBare([call], trail);
    hide UseAt, SitesIn, Getting;
  }

  /** One call among assignments. */
  function Module(above: seq<Stmt>, base: Expr, below: seq<Stmt>): seq<Stmt> {
    above + ([Served(base)] + below)
  }

  lemma {:induction false} ModuleRead(repo: Repo, file: File, above: seq<Stmt>, base: Expr, below: seq<Stmt>,
      trail: Trail, scope: string)
    requires AllSimple(repo, file, above) && AllSimple(repo, file, below)
    ensures var body := Module(above, base, below);
      && UsesOfStmts(repo, file, body, trail, scope) == UseAt(Getting(base), true, scope + "." + "f", trail)
      && CleanStmts(repo, file, body, trail) && SitesOfBody(body) == SitesIn(Getting(base))
  {
    var body := Module(above, base, below);
    hide Simple, Served, Getting, UseAt, SitesIn;
    if above == [] {
      assert body == [Served(base)] + below;
      Serving(repo, file, base, below, trail, scope);
    } else {
      assert above[0] in above && forall st | st in above[1..] :: st in above;
      assert body[0] == above[0] && body[1..] == Module(above[1..], base, below);
      Assigning(repo, file, body, trail, scope);
      ModuleRead(repo, file, above[1..], base, below, trail, scope);
    }
  }

  lemma {:induction false} SimpleLeft(repo: Repo, file: File, above: seq<Stmt>)
    requires AllSimple(repo, file, above)
    ensures LeftStmts(repo, file, above) == [] && Finishes(repo, file, above)
  {
    if above != [] {
      assert Simple(repo, file, above[0]) && Left(repo, file, above[0]) == [];
      assert forall st | st in above[1..] :: st in above;
      SimpleLeft(repo, file, above[1..]);
      hide FlowOf, CanFinish, SitesOfStmt, PrefixRead;
    }
  }

  lemma ModulePrefixes(repo: Repo, file: File, above: seq<Stmt>, base: Expr, below: seq<Stmt>)
    requires AllSimple(repo, file, above) && AllSimple(repo, file, below)
    ensures PrefixesRead(repo, file, Module(above, base, below))
  {
    assert PrefixRead(repo, file, Served(base));
    hide PrefixRead, Served, SitesOfStmt;
    forall st | st in Module(above, base, below) ensures PrefixRead(repo, file, st) {
      assert st in above || st == Served(base) || st in below;
    }
  }

  lemma ModuleClean(repo: Repo, file: File, above: seq<Stmt>, base: Expr, below: seq<Stmt>, scope: string)
    requires AllSimple(repo, file, above) && AllSimple(repo, file, below)
    ensures var body := Module(above, base, below); var trail := [] + Hoisted(repo, file, body);
      && UsesOfBody(repo, file, body, [], scope) == UseAt(Getting(base), true, scope + "." + "f", trail)
      && CleanBody(repo, file, body, []) && SitesOfBody(body) == SitesIn(Getting(base))
  {
    var body := Module(above, base, below);
    ModuleRead(repo, file, above, base, below, [] + Hoisted(repo, file, body), scope);
    ModulePrefixes(repo, file, above, base, below);
    hide Module, AllSimple, Hoisted, UsesOfStmts, CleanStmts, SitesOfBody, UseAt, Getting, PrefixesRead, SitesIn;
  }

  lemma GettingSites(base: Expr)
    ensures SitesIn(Getting(base)) == [Spot(0, if base.Name? then Some(base.id) else None, "get")] + SitesIn(base)
  {
    assert [Str("/x")][1..] == [];
    assert SitesInAll([Str("/x")]) == SitesIn(Str("/x")) + SitesInAll([]);
  }

  /** The route such a call makes. */
  lemma Gotten(repo: Repo, file: File, prefix: string, trail: Trail, scope: string) returns (u: Use)
    requires Visible(trail, "router") == Some(prefix)
    ensures u.site == Site(0, "router", "get") && u.prefix == prefix
      && UseAt(Getting(Name("router")), true, scope, trail) == [u]
    ensures Counted(repo, file, u) && |RoutesOf(repo, file, u).value| == 1
    ensures RoutesOf(repo, file, u).value[0].path == Join(prefix, "/x")
  {
    hide Visible;
    u := Use(Site(0, "router", "get"), Getting(Name("router")), true, scope, prefix);
    assert PathOf(repo, file, u) == Ok("/x");
    assert RoutesOf(repo, file, u) == Ok(Record(u, [Upper("get")], Join(prefix, "/x")));
  }

  /** The census reports the one route of such a module under the last prefix bound to its router. */
  lemma Reporting(repo: Repo, file: File, above: seq<Stmt>, below: seq<Stmt>, moduleName: string, prefix: string)
    returns (u: Use)
    requires AllSimple(repo, file, above) && AllSimple(repo, file, below)
    requires Visible([] + Hoisted(repo, file, Module(above, Name("router"), below)), "router") == Some(prefix)
    ensures Census(repo, file, Module(above, Name("router"), below), moduleName).Ok?
    ensures var routes := Census(repo, file, Module(above, Name("router"), below), moduleName).value.routes;
      |routes| == 1 && routes[0].path == Join(prefix, "/x")
    ensures u.site == Site(0, "router", "get") && u.prefix == prefix
    ensures var body := Module(above, Name("router"), below);
      u in OwnUses(body[|above|], SeenAt(repo, file, [], body, |above|), moduleName)
  {
    var base, body := Name("router"), Module(above, Name("router"), below);
    var trail := [] + Hoisted(repo, file, body);
    u := Gotten(repo, file, prefix, trail, moduleName + "." + "f");
    assert body[..|above|] == above && body[|above|] == Served(base) && trail + [] == trail;
    GettingSites(base);
    NameIs(base);
    assert SpotAt(u.site) == Spot(0, Some("router"), "get");
    hide *;
    SimpleLeft(repo, file, above);
    ModuleClean(repo, file, above, base, below, moduleName);
    ServedAlone(repo, file, base, trail, moduleName);
    OneUse(repo, file, body, moduleName, u);
    SeenHere(repo, file, body, |above|);
  }

  lemma SeenHere(repo: Repo, file: File, body: seq<Stmt>, i: nat)
    requires i < |body| && LeftStmts(repo, file, body[..i]) == []
    ensures SeenAt(repo, file, [], body, i) == [] + Hoisted(repo, file, body)
  {
    hide LeftStmts, Hoisted;
  }

  // ---------------------------------------------------------------------------------
  // A router bound again below its route

  const MADE_A: seq<Stmt> := [RouterNamed("router", "/a")]
  const MADE_B: seq<Stmt> := [RouterNamed("router", "/b")]

  /** `router = APIRouter(prefix="/a")`, a route on `router`, `router = APIRouter(prefix="/b")` */
  const REBOUND: seq<Stmt> := Module(MADE_A, Name("router"), MADE_B)

  lemma OneSimple(repo: Repo, file: File, name: string, p: string)
    ensures AllSimple(repo, file, [RouterNamed(name, p)])
      && Hoisted(repo, file, [RouterNamed(name, p)]) == [Binding(name, p)]
  {
    RouterIs(repo, file, name, p);
    var body := [RouterNamed(name, p)];
    assert body[1..] == [];
    hide SitesOfStmt, PrefixRead, BindingsOf, Owns, BoundBy;
    assert Hoisted(repo, file, body) == BindingsOf(repo, file, body[0]) + [];
  }

  lemma ModuleHoists(repo: Repo, file: File, above: seq<Stmt>, base: Expr, below: seq<Stmt>)
    ensures Hoisted(repo, file, Module(above, base, below)) == Hoisted(repo, file, above) + Hoisted(repo, file, below)
  {
    ServedHoists(repo, file, base, below);
    assert Module(above, base, below) == above + ([Served(base)] + below);
    hide *;
    HoistedConcat(repo, file, above, [Served(base)] + below);
  }

  lemma ServedHoists(repo: Repo, file: File, base: Expr, below: seq<Stmt>)
    ensures Hoisted(repo, file, [Served(base)] + below) == Hoisted(repo, file, below)
  {
    var rest := [Served(base)] + below;
    assert BindingsOf(repo, file, Served(base)) == [];
    hide BindingsOf, Served;
    assert rest[1..] == below && rest[0] == Served(base);
    assert [] + Hoisted(repo, file, below) == Hoisted(repo, file, below);
  }

  lemma ReboundTrail(repo: Repo, file: File)
    ensures Visible([] + Hoisted(repo, file, REBOUND), "router") == Some("/b")
    ensures AllSimple(repo, file, MADE_A) && AllSimple(repo, file, MADE_B)
  {
    OneSimple(repo, file, "router", "/a");
    OneSimple(repo, file, "router", "/b");
    ModuleHoists(repo, file, MADE_A, Name("router"), MADE_B);
    OnlyOneVisible(Name("router"), "/b");
    VisibleConcat([Binding("router", "/a")], [Binding("router", "/b")], "router");
    hide Hoisted, Visible, AllSimple, RouterNamed;
    assert [] + Hoisted(repo, file, REBOUND) == [Binding("router", "/a")] + [Binding("router", "/b")];
  }

  /** Where the last statement is `name = APIRouter(prefix=p)`, that is what the name holds. */
  lemma JustMade(repo: Repo, file: File, body: seq<Stmt>, env: Env, name: string, p: string)
    requires body != [] && body[|body| - 1] == RouterNamed(name, p) && AllSimple(repo, file, body)
    ensures forall w :: Always(repo, file, body, env, name, w) <==> w == What.Router(p)
  {
    var n := |body| - 1;
    RouterIs(repo, file, name, p);
    SimpleLeft(repo, file, body);
    assert body[n + 1..] == [];
    assert LastOwn([Makes(name, p)], name) == Some(Makes(name, p));
    assert Touches(repo, file, body, n, name);
    assert forall w :: Fixed(Makes(name, p), w) <==> w == What.Router(p);
    assert !IsFlow(body[n]);
    hide *;
    forall w ensures Always(repo, file, body, env, name, w) <==> w == What.Router(p) {
      AlwaysOwn(repo, file, body, n, env, name, Makes(name, p), w);
    }
  }

  /** Reported at "/b/x"; every run makes the route at "/a/x", on the first router. */
  lemma ReboundRouterReportsLastPrefix(repo: Repo, file: File, moduleName: string, env: Env) returns (u: Use)
    ensures Census(repo, file, REBOUND, moduleName).Ok?
    ensures var routes := Census(repo, file, REBOUND, moduleName).value.routes;
      |routes| == 1 && routes[0].path == "/b/x"
    ensures u in OwnUses(REBOUND[1], SeenAt(repo, file, [], REBOUND, 1), moduleName) && u.site.base == "router"
    ensures Always(repo, file, REBOUND[..1], env, "router", What.Router("/a")) && Join("/a", "/x") == "/a/x" != "/b/x"
    ensures !Right(repo, file, REBOUND, 1, env, u)
  {
    ReboundIs();
    JoinedPaths();
    hide *;
    ReboundTrail(repo, file);
    u := Reporting(repo, file, MADE_A, MADE_B, moduleName, "/b");
    JustMade(repo, file, MADE_A, env, "router", "/a");
    RightIs(repo, file, REBOUND, 1, env, u);
  }

  lemma ReboundIs()
    ensures REBOUND == Module(MADE_A, Name("router"), MADE_B) && |MADE_A| == 1
      && MADE_A[0] == RouterNamed("router", "/a")
    ensures |REBOUND| > 1 && REBOUND[..1] == MADE_A
  {
    hide RouterNamed, Served;
  }

  lemma JoinedPaths()
    ensures Join("/b", "/x") == "/b/x" && Join("/a", "/x") == "/a/x" != "/b/x"
    ensures What.Router("/a") != What.Router("/b")
  {
    assert "/b" + "/x" == "/b/x" && "/a" + "/x" == "/a/x" && "/a/x"[1] != "/b/x"[1] && "/a"[1] != "/b"[1];
  }

  // ---------------------------------------------------------------------------------
  // A router's name given another router

  const OTHER_B: seq<Stmt> := [RouterNamed("other", "/b")]
  const COPIED: seq<Stmt> := [Assign([Name("router")], Name("other"))]
  const TWO_MADE: seq<Stmt> := OTHER_B + MADE_A
  const TWO_ROUTERS: seq<Stmt> := TWO_MADE + COPIED

  /** `other = APIRouter(prefix="/b")`, `router = APIRouter(prefix="/a")`, `router = other`, and a route on `router`. */
  const REASSIGNED: seq<Stmt> := Module(TWO_ROUTERS, Name("router"), [])

  lemma SimpleConcat(repo: Repo, file: File, a: seq<Stmt>, b: seq<Stmt>)
    requires AllSimple(repo, file, a) && AllSimple(repo, file, b)
    ensures AllSimple(repo, file, a + b)
  {
    hide Simple;
  }

  lemma CopySimple(repo: Repo, file: File, name: string, other: string)
    requires name != other
    ensures var body := [Assign([Name(name)], Name(other))];
      AllSimple(repo, file, body) && Hoisted(repo, file, body) == []
  {
    CopyIs(repo, file, name, other);
    assert [Assign([Name(name)], Name(other))][1..] == [];
    hide SitesOfStmt, PrefixRead, BindingsOf, Owns, BoundBy;
  }

  lemma TwoSimple(repo: Repo, file: File)
    ensures AllSimple(repo, file, TWO_MADE) && AllSimple(repo, file, TWO_ROUTERS) && AllSimple(repo, file, [])
    ensures Hoisted(repo, file, TWO_ROUTERS) == [Binding("other", "/b")] + [Binding("router", "/a")]
  {
    var bindings := [Binding("other", "/b")] + [Binding("router", "/a")];
    assert bindings + [] == bindings;
    assert TWO_ROUTERS == TWO_MADE + COPIED && TWO_MADE == OTHER_B + MADE_A;
    OneSimple(repo, file, "other", "/b");
    OneSimple(repo, file, "router", "/a");
    hide *;
    NoStatements(repo, file);
    CopySimple(repo, file, "router", "other");
    CopiedIs();
    assert OTHER_B == [RouterNamed("other", "/b")] && MADE_A == [RouterNamed("router", "/a")] by {
      MadeAre();
    }
    SimpleConcat(repo, file, OTHER_B, MADE_A);
    SimpleConcat(repo, file, TWO_MADE, COPIED);
    HoistedConcat(repo, file, OTHER_B, MADE_A);
    HoistedConcat(repo, file, TWO_MADE, COPIED);
  }

  lemma MadeAre()
    ensures OTHER_B == [RouterNamed("other", "/b")] && MADE_A == [RouterNamed("router", "/a")]
  {
  }

  lemma TwoTrail(repo: Repo, file: File)
    ensures Visible([] + Hoisted(repo, file, REASSIGNED), "router") == Some("/a")
  {
    TwoSimple(repo, file);
    ModuleHoists(repo, file, TWO_ROUTERS, Name("router"), []);
    OnlyOneVisible(Name("router"), "/a");
    VisibleConcat([Binding("other", "/b")], [Binding("router", "/a")], "router");
    assert Hoisted(repo, file, []) == [];
    hide Hoisted, Visible, AllSimple, TWO_ROUTERS;
    assert [] + Hoisted(repo, file, REASSIGNED) == [Binding("other", "/b")] + [Binding("router", "/a")];
  }

  lemma CopyTouches(repo: Repo, file: File)
    ensures Touches(repo, file, TWO_ROUTERS, 2, "router") && !IsFlow(TWO_ROUTERS[2])
    ensures LastOwn(Owns(repo, file, TWO_ROUTERS[2]), "router") == Some(Copies("router", "other"))
    ensures TWO_ROUTERS[..2] == TWO_MADE
  {
    TwoSimple(repo, file);
    SimpleLeft(repo, file, TWO_ROUTERS);
    CopyIs(repo, file, "router", "other");
    LastOfOne(Copies("router", "other"));
    hide Owns, Finishes, LastOwn, AllSimple, SitesOfStmt, BindingsOf, PrefixRead, BoundBy, Hoisted, RouterNamed;
    assert TWO_ROUTERS[3..] == [];
  }

  /** After `router = other` the name holds what `other` was made. */
  lemma Reassigned(repo: Repo, file: File, env: Env)
    ensures forall w :: Always(repo, file, TWO_ROUTERS, env, "router", w) <==> w == What.Router("/b")
  {
    assert |TWO_ROUTERS| == 3;
    hide *;
    CopyTouches(repo, file);
    OtherKept(repo, file, env);
    forall w ensures Always(repo, file, TWO_ROUTERS, env, "router", w) <==> w == What.Router("/b") {
      AlwaysAlias(repo, file, TWO_ROUTERS, 2, env, "router", "other", w);
    }
  }

  lemma OtherKept(repo: Repo, file: File, env: Env)
    ensures forall w :: Always(repo, file, TWO_MADE, env, "other", w) <==> w == What.Router("/b")
  {
    assert |TWO_MADE| == 2 && forall w :: Fixed(Makes("other", "/b"), w) <==> w == What.Router("/b");
    hide *;
    OtherTouched(repo, file);
    forall w ensures Always(repo, file, TWO_MADE, env, "other", w) <==> w == What.Router("/b") {
      AlwaysOwn(repo, file, TWO_MADE, 0, env, "other", Makes("other", "/b"), w);
    }
  }

  lemma OtherTouched(repo: Repo, file: File)
    ensures Touches(repo, file, TWO_MADE, 0, "other") && !IsFlow(TWO_MADE[0])
    ensures LastOwn(Owns(repo, file, TWO_MADE[0]), "other") == Some(Makes("other", "/b"))
  {
    TwoSimple(repo, file);
    SimpleLeft(repo, file, TWO_MADE);
    RouterIs(repo, file, "other", "/b");
    RouterIs(repo, file, "router", "/a");
    assert !IsFlow(RouterNamed("router", "/a")) && !IsFlow(RouterNamed("other", "/b"));
    LastOfOne(Makes("other", "/b"));
    LastOfOne(Makes("router", "/a"));
    hide Owns, RouterNamed, Finishes, LastOwn, IsFlow, AllSimple, SitesOfStmt, BindingsOf, PrefixRead, BoundBy, Hoisted;
    assert TWO_MADE[1..] == MADE_A && TWO_MADE[0] == RouterNamed("other", "/b");
    assert forall st | st in MADE_A :: st == RouterNamed("router", "/a");
  }

  lemma LastOfOne(o: Own)
    ensures forall name :: LastOwn([o], name) == if name == o.name then Some(o) else None
  {
    assert [o][..0] == [];
  }

  /** Reported at "/a/x", with nothing below the route; every run makes it at "/b/x". */
  lemma ReassignedRouterReportsItsOwnPrefix(repo: Repo, file: File, moduleName: string, env: Env) returns (u: Use)
    ensures Census(repo, file, REASSIGNED, moduleName).Ok?
    ensures var routes := Census(repo, file, REASSIGNED, moduleName).value.routes;
      |routes| == 1 && routes[0].path == "/a/x"
    ensures u in OwnUses(REASSIGNED[3], SeenAt(repo, file, [], REASSIGNED, 3), moduleName) && u.site.base == "router"
    ensures Always(repo, file, REASSIGNED[..3], env, "router", What.Router("/b"))
      && Join("/b", "/x") == "/b/x" != "/a/x"
    ensures !Right(repo, file, REASSIGNED, 3, env, u)
  {
    ReassignedIs();
    JoinedPaths();
    hide *;
    TwoSimple(repo, file);
    TwoTrail(repo, file);
    Reassigned(repo, file, env);
    u := Reporting(repo, file, TWO_ROUTERS, [], moduleName, "/a");
    RightIs(repo, file, REASSIGNED, 3, env, u);
  }

  lemma ReassignedIs()
    ensures REASSIGNED == Module(TWO_ROUTERS, Name("router"), []) && |TWO_ROUTERS| == 3
    ensures |REASSIGNED| > 3 && REASSIGNED[..3] == TWO_ROUTERS
  {
    hide RouterNamed, Served;
  }

  // ---------------------------------------------------------------------------------
  // A router made on either branch

  function Making(role: Role, p: string): Suite {
    Suite(role, [], [], [RouterNamed("router", p)])
  }

  /** `if ...: router = APIRouter(prefix=p)`, and `else` the same. */
  function Either(p: string): Stmt {
    Block(If, [], [Making(Body, p), Making(Orelse, p)], [])
  }

  /** `try: router = APIRouter(prefix=p)`, and `except` the same. */
  function Fallback(p: string): Stmt {
    Block(Try, [], [Making(Body, p), Suite(Orelse, [], [], []), Suite(Finally, [], [], []), Making(Handling, p)], [])
  }

  /** It always gets through, and this is the one thing it may do last to the name. */
  ghost predicate Only(p: Path, name: string, e: End) {
    CanFinish(p) && Ends(p, name) == {e}
  }

  lemma OnlyThen(a: Path, b: Path, name: string, e: End)
    requires (Only(a, name, e) && Only(b, name, Untouched)) || (CanFinish(a) && Only(b, name, e) && e != Untouched)
    ensures Only(Then(a, b), name, e)
  {
  }

  lemma OnlyOr(a: Path, b: Path, name: string, e: End)
    requires Only(a, name, e) && (b == Never || Only(b, name, e))
    ensures Only(Or(a, b), name, e) && Only(Or(b, a), name, e)
  {
  }

  lemma OnlySkip(name: string)
    ensures Only(Skip, name, Untouched)
  {
  }

  lemma MakingEnds(repo: Repo, file: File, role: Role, p: string)
    ensures Only(FlowOfSuite(repo, file, Making(role, p), Through), "router", By(Makes("router", p)))
  {
    var st, made := RouterNamed("router", p), Makes("router", p);
    RouterIs(repo, file, "router", p);
    assert !st.Block? && !st.Leave?;
    assert AssignsAll([]) == [] && ClearsAll([]) == [] && [made][1..] == [] && [st][1..] == [];
    assert InOrder([made]) == Then(One(made), Skip);
    assert FlowOf(repo, file, st, Through) == InOrder([made]);
    assert Only(One(made), "router", By(made));
    hide Only, RouterNamed, Owns, FlowOf;
    OnlySkip("router");
    OnlyThen(One(made), Skip, "router", By(made));
    assert FlowOfStmts(repo, file, [st], Through) == Then(FlowOf(repo, file, st, Through), Skip);
    OnlyThen(FlowOf(repo, file, st, Through), Skip, "router", By(made));
    OnlyThen(FlowOfStmts(repo, file, [st], Through), Skip, "router", By(made));
    SkipThen(Then(FlowOfStmts(repo, file, [st], Through), Skip), "router", By(made));
  }

  lemma SkipThen(b: Path, name: string, e: End)
    requires Only(b, name, e)
    ensures Only(Then(Skip, b), name, e)
  {
  }

  lemma EmptyEnds(repo: Repo, file: File, role: Role)
    ensures Only(FlowOfSuite(repo, file, Suite(role, [], [], []), Through), "router", Untouched)
  {
    assert AssignsAll([]) == [] && ClearsAll([]) == [];
  }

  lemma {:induction false} PartialFinishes(p: Path)
    ensures CanFinish(Partial(p))
  {
    match p
    case Then(a, b) => PartialFinishes(a);
    case Or(a, b) => PartialFinishes(a);
    case Star(a) => PartialFinishes(a);
    case _ =>
  }

  lemma EitherEnds(repo: Repo, file: File, p: string)
    ensures Only(FlowOf(repo, file, Either(p), Through), "router", By(Makes("router", p)))
  {
    var st, e := Either(p), By(Makes("router", p));
    var rest := st.blocks[1..];
    assert rest == [Making(Orelse, p)] && rest[1..] == [];
    MakingEnds(repo, file, Body, p);
    MakingEnds(repo, file, Orelse, p);
    var a, b := FlowOfSuite(repo, file, Making(Body, p), Through), FlowOfSuite(repo, file, Making(Orelse, p), Through);
    assert InOrder(NamedInAll([])) == Skip;
    hide FlowOfSuite, Only, RouterNamed;
    assert FlowOfSuites(repo, file, rest, Body, Through) == Never;
    assert FlowOfSuites(repo, file, rest, Orelse, Through) == Or(b, Never);
    assert FlowOfSuites(repo, file, st.blocks, Body, Through) == Or(a, Never);
    assert FlowOfSuites(repo, file, st.blocks, Orelse, Through) == Or(b, Never);
    OnlyOr(a, Never, "router", e);
    OnlyOr(b, Never, "router", e);
    OnlyOr(Or(a, Never), Or(b, Never), "router", e);
    SkipThen(Or(Or(a, Never), Or(b, Never)), "router", e);
  }

  lemma FallbackSuites(repo: Repo, file: File, p: string)
    ensures var bs, at := Fallback(p).blocks, (s: Suite) => FlowOfSuite(repo, file, s, Through);
      && FlowOfSuites(repo, file, bs, Body, Through) == Or(at(bs[0]), Never)
      && FlowOfSuites(repo, file, bs, Orelse, Through) == Or(at(bs[1]), Never)
      && FlowOfSuites(repo, file, bs, Finally, Through) == Or(at(bs[2]), Never)
      && FlowOfSuites(repo, file, bs, Handling, Through) == Or(at(bs[3]), Never)
  {
    var bs := Fallback(p).blocks;
    assert bs[1..][1..] == bs[2..] && bs[2..][1..] == bs[3..] && bs[3..][1..] == [];
    hide FlowOfSuite, RouterNamed;
    forall role | role == Body || role == Orelse || role == Finally || role == Handling
      ensures FlowOfSuites(repo, file, bs[3..], role, Through)
           == if role == Handling then Or(FlowOfSuite(repo, file, bs[3], Through), Never) else Never
      ensures FlowOfSuites(repo, file, bs[2..], role, Through)
           == if role == Finally then Or(FlowOfSuite(repo, file, bs[2], Through),
             FlowOfSuites(repo, file, bs[3..], role, Through))
              else FlowOfSuites(repo, file, bs[3..], role, Through)
      ensures FlowOfSuites(repo, file, bs[1..], role, Through)
           == if role == Orelse then Or(FlowOfSuite(repo, file, bs[1], Through),
             FlowOfSuites(repo, file, bs[2..], role, Through))
              else FlowOfSuites(repo, file, bs[2..], role, Through)
    {
    }
  }

  lemma FallbackEnds(repo: Repo, file: File, p: string)
    ensures Only(FlowOf(repo, file, Fallback(p), Through), "router", By(Makes("router", p)))
  {
    var bs, e := Fallback(p).blocks, By(Makes("router", p));
    var whole, orelse := Or(FlowOfSuite(repo, file, bs[0], Through), Never),
      Or(FlowOfSuite(repo, file, bs[1], Through), Never);
    var last, handler := Or(FlowOfSuite(repo, file, bs[2], Through), Never),
      Or(FlowOfSuite(repo, file, bs[3], Through), Never);
    FallbackSuites(repo, file, p);
    MakingEnds(repo, file, Body, p);
    MakingEnds(repo, file, Handling, p);
    EmptyEnds(repo, file, Orelse);
    EmptyEnds(repo, file, Finally);
    PartialFinishes(whole);
    assert FlowOf(repo, file, Fallback(p), Through)
      == Then(Or(Then(whole, orelse), Then(Partial(whole), handler)), last);
    hide FlowOfSuite, FlowOfSuites, FlowOf, Only, RouterNamed, Partial, CanFinish, Ends;
    OnlyOr(FlowOfSuite(repo, file, bs[0], Through), Never, "router", e);
    OnlyOr(FlowOfSuite(repo, file, bs[1], Through), Never, "router", Untouched);
    OnlyOr(FlowOfSuite(repo, file, bs[2], Through), Never, "router", Untouched);
    OnlyOr(FlowOfSuite(repo, file, bs[3], Through), Never, "router", e);
    OnlyThen(whole, orelse, "router", e);
    OnlyThen(Partial(whole), handler, "router", e);
    OnlyOr(Then(whole, orelse), Then(Partial(whole), handler), "router", e);
    OnlyThen(Or(Then(whole, orelse), Then(Partial(whole), handler)), last, "router", e);
  }

  /** After either, every run has that router, whatever was there before: the branches need not be told apart. */
  lemma MadeEitherWay(repo: Repo, file: File, env: Env, p: string)
    ensures Always(repo, file, [Either(p)], env, "router", What.Router(p))
    ensures Always(repo, file, [Fallback(p)], env, "router", What.Router(p))
  {
    EitherEnds(repo, file, p);
    FallbackEnds(repo, file, p);
    OnlyOneStatement(repo, file, Either(p), env, "router", p);
    OnlyOneStatement(repo, file, Fallback(p), env, "router", p);
  }

  lemma OnlyOneStatement(repo: Repo, file: File, st: Stmt, env: Env, name: string, p: string)
    requires st.Block? && Only(FlowOf(repo, file, st, Through), name, By(Makes(name, p)))
    ensures Always(repo, file, [st], env, name, What.Router(p))
  {
    hide FlowOf, Ends, Always, CanFinish;
    assert Sure(repo, file, [st], env, name, What.Router(p));
    AlwaysIff(repo, file, [st], env, name, What.Router(p));
  }

  // ---------------------------------------------------------------------------------
  // Routes not reported at all

  const R_COPIED: seq<Stmt> := [Assign([Name("r")], Name("router"))]
  const MADE_THEN_ALIASED: seq<Stmt> := MADE_A + R_COPIED

  /** `router = APIRouter(prefix="/a")`, `r = router`, and a route on `r`. */
  const ALIASED: seq<Stmt> := Module(MADE_THEN_ALIASED, Name("r"), [])

  /** `a, b = APIRouter(...), APIRouter(...)`, and a route on `a`. */
  const PAIRED: seq<Stmt> := Module([Assign([Listing([Name("a"), Name("b")])], Listing([Made("/a"), Made("/b")]))],
      Name("a"), [])

  const HELD: Expr := Attr(2, Name("holder"), "router")

  /** `holder.router = APIRouter(prefix="/a")`, and a route on `holder.router`. */
  const ATTRIBUTE: seq<Stmt> := Module([Assign([Attr(1, Name("holder"), "router")], Made("/a"))], HELD, [])

  /** A `match` one of whose cases binds `router`, and a route on it. */
  const CASED: seq<Stmt> := [Block(Match, [Name("mode")], [], [Suite(Body, [], [], MADE_A)]), Served(Name("router"))]

  lemma AliasedRead(repo: Repo, file: File)
    ensures AllSimple(repo, file, MADE_THEN_ALIASED) && AllSimple(repo, file, [])
    ensures [] + Hoisted(repo, file, ALIASED) == [Binding("router", "/a")]
  {
    var made := [Binding("router", "/a")];
    assert made + [] == made && [] + made == made;
    OneSimple(repo, file, "router", "/a");
    assert MADE_THEN_ALIASED == MADE_A + R_COPIED && ALIASED == Module(MADE_THEN_ALIASED, Name("r"), []);
    assert Hoisted(repo, file, []) == [];
    hide *;
    MadeAre();
    NoStatements(repo, file);
    CopySimple(repo, file, "r", "router");
    assert R_COPIED == [Assign([Name("r")], Name("router"))] by {
      CopiedIs();
    }
    SimpleConcat(repo, file, MADE_A, R_COPIED);
    HoistedConcat(repo, file, MADE_A, R_COPIED);
    ModuleHoists(repo, file, MADE_THEN_ALIASED, Name("r"), []);
  }

  lemma CopiedIs()
    ensures R_COPIED == [Assign([Name("r")], Name("router"))] && COPIED == [Assign([Name("router")], Name("other"))]
  {
  }

  lemma AliasedBinds(repo: Repo, file: File)
    ensures BoundIn(ALIASED) == {"router"}
  {
    RouterIs(repo, file, "router", "/a");
    CopyIs(repo, file, "r", "router");
    ServedBinds(Name("r"));
    assert ALIASED[0] == RouterNamed("router", "/a") && ALIASED[1] == Assign([Name("r")], Name("router"));
    assert ALIASED[1..][1..] == [Served(Name("r"))];
    hide SitesOfStmt, PrefixRead, BindingsOf, Owns, BoundBy, BoundIn;
    AssignBinds(ALIASED);
    AssignBinds(ALIASED[1..]);
  }

  lemma AssignBinds(body: seq<Stmt>)
    requires body != [] && body[0].Assign?
    ensures BoundIn(body) == BoundBy(body[0]) + BoundIn(body[1..])
  {
    assert BoundWithin(body[0]) == {};
    hide BoundBy, BoundWithin;
    assert BoundInside(body) == {} + BoundInside(body[1..]);
  }

  lemma ServedBinds(base: Expr)
    ensures BoundIn([Served(base)]) == {}
  {
    var body := [Served(base)];
    assert body[1..] == [] && BoundIn([]) == {} && BoundWithin(body[0]) == BoundIn([]);
    assert BoundInside(body) == BoundWithin(body[0]) + BoundInside([]);
    assert BoundHere(body) == BoundBy(body[0]) + BoundHere([]);
  }

  /** The census, raising nothing, knows `router` and reports no route. */
  lemma AliasMissed(repo: Repo, file: File, moduleName: string)
    ensures Census(repo, file, ALIASED, moduleName) == Ok(Walk([], {"router"}, {}))
    ensures SitesOfBody(ALIASED) == [Spot(0, Some("r"), "get")] && BoundIn(ALIASED) == {"router"}
  {
    AliasedRead(repo, file);
    AliasedBinds(repo, file);
    GettingSites(Name("r"));
    NameIs(Name("r"));
    assert UseAt(Getting(Name("r")), true, moduleName + "." + "f", [Binding("router", "/a")]) == [] by {
      OnlyOneVisible(Name("router"), "/a");
    }
    hide *;
    ModuleClean(repo, file, MADE_THEN_ALIASED, Name("r"), [], moduleName);
    NoUses(repo, file, ALIASED, moduleName, Spot(0, Some("r"), "get"));
  }

  /** A module without a use, whose one surface attribute is off the bound names. */
  lemma NoUses(repo: Repo, file: File, tree: seq<Stmt>, moduleName: string, spot: Spot)
    requires UsesOfBody(repo, file, tree, [], moduleName) == [] && CleanBody(repo, file, tree, [])
    requires SitesOfBody(tree) == [spot] && !OnName(spot, BoundIn(tree))
    ensures Census(repo, file, tree, moduleName) == Ok(Walk([], BoundIn(tree), {}))
  {
    assert AllUsed(tree, []);
    hide *;
    NothingCounted(repo, file);
    AnswersIff(repo, file, tree, moduleName);
    TreeWalked(repo, file, tree, moduleName);
    NothingWalked(repo, file, Census(repo, file, tree, moduleName).value);
  }

  /** What `NothingBound` says, for a module of one call among assignments. */
  lemma UnboundMissed(repo: Repo, file: File, above: seq<Stmt>, base: Expr, moduleName: string)
    requires AllSimple(repo, file, above) && BoundIn(Module(above, base, [])) == {} && SitesIn(base) == []
    ensures Census(repo, file, Module(above, base, []), moduleName) == Ok(Walk([], {}, {}))
    ensures |SitesOfBody(Module(above, base, []))| == 1
  {
    GettingSites(base);
    hide *;
    assert AllSimple(repo, file, []) by {
      NoStatements(repo, file);
    }
    ModuleClean(repo, file, above, base, [], moduleName);
    NothingBound(repo, file, Module(above, base, []), moduleName);
  }

  lemma NoStatements(repo: Repo, file: File)
    ensures AllSimple(repo, file, [])
  {
  }

  lemma PairSites(a: Expr, b: Expr)
    requires SitesIn(a) == [] && SitesIn(b) == []
    ensures SitesIn(Listing([a, b])) == []
  {
    assert [a, b][1..] == [b] && [b][1..] == [];
    assert SitesInAll([b]) == SitesIn(b) + SitesInAll([]);
    assert SitesInAll([a, b]) == SitesIn(a) + SitesInAll([b]);
  }

  lemma PairedIs(repo: Repo, file: File)
    ensures var st := Assign([Listing([Name("a"), Name("b")])], Listing([Made("/a"), Made("/b")]));
      Simple(repo, file, st) && BoundBy(st) == {}
  {
    var target, value := Listing([Name("a"), Name("b")]), Listing([Made("/a"), Made("/b")]);
    MadeIs(repo, file, "/a");
    MadeIs(repo, file, "/b");
    PairSites(Name("a"), Name("b"));
    PairSites(Made("/a"), Made("/b"));
    assert !IsApiRouter(value);
    assert [target][1..] == [];
    hide Made, SitesIn, IsApiRouter, PrefixOf;
    assert SitesInAll([target]) == SitesIn(target) + SitesInAll([]);
  }

  lemma HeldIs(repo: Repo, file: File)
    ensures var st := Assign([Attr(1, Name("holder"), "router")], Made("/a"));
      Simple(repo, file, st) && BoundBy(st) == {} && SitesIn(HELD) == []
  {
    MadeIs(repo, file, "/a");
    Inner(1);
    Inner(2);
    var targets := [Attr(1, Name("holder"), "router")];
    assert targets[1..] == [];
    hide Made, SitesIn;
    assert SitesInAll(targets) == SitesIn(targets[0]) + SitesInAll([]);
    assert TargetNames(targets) == {} + TargetNames([]);
  }

  lemma Inner(node: nat)
    ensures SitesIn(Attr(node, Name("holder"), "router")) == []
  {
    assert |"router"| == 6 && "router"[3] == 't';
    assert "router" !in ROUTER_SURFACE_CALLS;
  }

  lemma OneMissed(repo: Repo, file: File, st: Stmt, base: Expr, moduleName: string)
    requires Simple(repo, file, st) && BoundBy(st) == {} && SitesIn(base) == []
    ensures Census(repo, file, Module([st], base, []), moduleName) == Ok(Walk([], {}, {}))
    ensures |SitesOfBody(Module([st], base, []))| == 1
  {
    var tree := Module([st], base, []);
    assert tree[0] == st && tree[1..] == [Served(base)];
    assert AllSimple(repo, file, [st]);
    hide *;
    ServedBinds(base);
    assert st.Assign? by {
      SimpleAssigns(repo, file, st);
    }
    AssignBinds(tree);
    UnboundMissed(repo, file, [st], base, moduleName);
  }

  lemma SimpleAssigns(repo: Repo, file: File, st: Stmt)
    requires Simple(repo, file, st)
    ensures st.Assign?
  {
  }

  /** Routers bound in a tuple, or to an attribute: nothing is reported and nothing is raised. */
  lemma PairAndAttributeMissed(repo: Repo, file: File, moduleName: string)
    ensures Census(repo, file, PAIRED, moduleName) == Ok(Walk([], {}, {})) && |SitesOfBody(PAIRED)| == 1
    ensures Census(repo, file, ATTRIBUTE, moduleName) == Ok(Walk([], {}, {})) && |SitesOfBody(ATTRIBUTE)| == 1
  {
    PairedIs(repo, file);
    HeldIs(repo, file);
    NameIs(Name("a"));
    hide Census, SitesOfBody, Module, Simple, BoundBy, SitesIn, Made;
    OneMissed(repo, file, Assign([Listing([Name("a"), Name("b")])], Listing([Made("/a"), Made("/b")])), Name("a"),
      moduleName);
    OneMissed(repo, file, Assign([Attr(1, Name("holder"), "router")], Made("/a")), HELD, moduleName);
  }

  lemma CasedRead(repo: Repo, file: File)
    ensures CleanBody(repo, file, CASED, []) && BoundIn(CASED) == {} && |SitesOfBody(CASED)| == 1
  {
    var rest := [Served(Name("router"))];
    assert CASED[1..] == rest && rest[1..] == [];
    CaseIs(repo, file);
    ServedBinds(Name("router"));
    GettingSites(Name("router"));
    NameIs(Name("router"));
    NoStatements(repo, file);
    assert [Served(Name("router"))] + [] == rest;
    var trail := [] + Hoisted(repo, file, CASED);
    Serving(repo, file, Name("router"), [], trail + Left(repo, file, CASED[0]), "");
    hide Served, SitesOfStmt, CleanStmt, Left, Hoisted, BoundWithin, BoundBy, PrefixRead, SitesIn, Getting, UseAt;
    assert CleanStmts(repo, file, CASED, trail);
    assert BoundHere(CASED) == {} + BoundHere(rest) && BoundInside(CASED) == {} + BoundInside(rest);
  }

  lemma CaseIs(repo: Repo, file: File)
    ensures forall trail :: CleanStmt(repo, file, CASED[0], trail)
    ensures BoundWithin(CASED[0]) == {} && BoundBy(CASED[0]) == {} && SitesOfStmt(CASED[0]) == []
    ensures PrefixRead(repo, file, CASED[0]) && PrefixRead(repo, file, Served(Name("router")))
  {
    CaseSites(repo, file);
  }

  lemma CaseSites(repo: Repo, file: File)
    ensures SitesOfStmt(CASED[0]) == []
  {
    var st := CASED[0];
    RouterIs(repo, file, "router", "/a");
    assert MADE_A[1..] == [] && MADE_A[0] == RouterNamed("router", "/a");
    assert st.unwalked[1..] == [] && st.header[1..] == [];
    hide RouterNamed, BindingsOf, Owns, BoundBy;
    assert SitesOfBody(MADE_A) == SitesOfStmt(MADE_A[0]) + [];
    assert SitesOfSuites(st.unwalked) == SitesOfSuite(st.unwalked[0]) + [];
    assert SitesInAll(st.header) == SitesIn(Name("mode")) + [];
  }

  /** A router bound in a case of a `match`: the same. */
  lemma CaseMissed(repo: Repo, file: File, moduleName: string)
    ensures Census(repo, file, CASED, moduleName) == Ok(Walk([], {}, {})) && |SitesOfBody(CASED)| == 1
  {
    CasedRead(repo, file);
    hide *;
    NothingBound(repo, file, CASED, moduleName);
  }
}
