// Exactly which route modules the census answers for, and which it raises on.
module RouteAnswers {
  import opened Prelude
  import opened RouteConstants
  import opened RouteWalk
  import opened RouteCensus

  /** A decorator that names a surface attribute of a router without calling it. */
  ghost predicate Bare(d: Expr, trail: Trail) {
    d.Attr? && SiteOf(d).Some? && Visible(trail, SiteOf(d).value.base).Some?
  }

  ghost predicate NoneBare(ds: seq<Expr>, trail: Trail) {
    forall d | d in ds :: !Bare(d, trail)
  }

  /** The prefix of a router can be evaluated. */
  predicate PrefixRead(repo: Repo, file: File, st: Stmt) {
    Assigned(st).Some? && IsApiRouter(Assigned(st).value.0) ==> PrefixOf(repo, file, Assigned(st).value.0).Ok?
  }

  ghost predicate PrefixesRead(repo: Repo, file: File, body: seq<Stmt>) {
    forall st | st in body :: PrefixRead(repo, file, st)
  }

  /** Every prefix can be evaluated, and no decorator is bare, in every body the walk enters. */
  ghost predicate CleanBody(repo: Repo, file: File, body: seq<Stmt>, trail: Trail)
    decreases body, 2
  {
    PrefixesRead(repo, file, body) && CleanStmts(repo, file, body, trail + Hoisted(repo, file, body))
  }

  ghost predicate CleanStmts(repo: Repo, file: File, body: seq<Stmt>, trail: Trail)
    decreases body, 1
  {
    body == [] ||
    (CleanStmt(repo, file, body[0], trail) && CleanStmts(repo, file, body[1..], trail + Left(repo, file, body[0])))
  }

  ghost predicate CleanStmt(repo: Repo, file: File, st: Stmt, trail: Trail)
    decreases st, 0
  {
    match st
    case FunctionDef(_, decorators, _, body) => NoneBare(decorators, trail) && CleanBody(repo, file, body, trail)
    case ClassDef(_, _, body) => CleanBody(repo, file, body, trail)
    case Block(_, _, blocks, _) => CleanSuites(repo, file, blocks, trail)
    case _ => true
  }

  ghost predicate CleanSuites(repo: Repo, file: File, suites: seq<Suite>, trail: Trail)
    decreases suites, 0
  {
    suites == [] ||
    (CleanSuite(repo, file, suites[0], trail) && CleanSuites(repo, file, suites[1..],
      trail + LeftSuite(repo, file, suites[0])))
  }

  ghost predicate CleanSuite(repo: Repo, file: File, suite: Suite, trail: Trail)
    decreases suite, 3
  {
    CleanBody(repo, file, suite.body, trail)
  }

  lemma CountedParts(repo: Repo, file: File, a: seq<Use>, b: seq<Use>)
    ensures AllCounted(repo, file, a + b) <==> AllCounted(repo, file, a) && AllCounted(repo, file, b)
  {
    hide Counted;
    if AllCounted(repo, file, a + b) {
      assert forall u | u in a :: u in a + b;
      assert forall u | u in b :: u in a + b;
    }
  }

  lemma OneCounted(repo: Repo, file: File, u: Use)
    ensures AllCounted(repo, file, [u]) <==> Counted(repo, file, u)
  {
    hide Counted;
    assert u in [u];
  }

  lemma UseOk(repo: Repo, file: File, w: Walk, call: Expr, decorates: bool, routers: Routers, trail: Trail,
      scope: string)
    requires call.Call? && Reflects(routers, trail)
    requires SiteOf(call.func).Some? && SiteOf(call.func).value.base in routers
    ensures var u := Use(SiteOf(call.func).value, call, decorates, scope, routers[SiteOf(call.func).value.base]);
      HandleUse(repo, file, w, u).Ok? <==> AllCounted(repo, file, UseAt(call, decorates, scope, trail))
  {
    var u := Use(SiteOf(call.func).value, call, decorates, scope, routers[SiteOf(call.func).value.base]);
    assert Visible(trail, u.site.base) == Some(u.prefix);
    hide RoutesOf, Visible, AllCounted;
    OneCounted(repo, file, u);
  }

  lemma NothingCounted(repo: Repo, file: File)
    ensures AllCounted(repo, file, [])
  {
  }

  lemma DecoratorOk(repo: Repo, file: File, w: Walk, d: Expr, routers: Routers, trail: Trail, qualname: string)
    requires Reflects(routers, trail)
    ensures HandleDecorator(repo, file, w, d, routers, qualname).Ok?
      <==> !Bare(d, trail) && AllCounted(repo, file, UseAt(d, true, qualname, trail))
  {
    NothingCounted(repo, file);
    hide AllCounted, HandleUse, Visible;
    if d.Call? && SiteOf(d.func).Some? && SiteOf(d.func).value.base in routers {
      UseOk(repo, file, w, d, true, routers, trail, qualname);
    }
  }

  lemma {:induction false} DecoratorsOk(repo: Repo, file: File, w: Walk, ds: seq<Expr>, routers: Routers,
      trail: Trail, qualname: string)
    requires Reflects(routers, trail)
    ensures HandleDecorators(repo, file, w, ds, routers, qualname).Ok?
      <==> NoneBare(ds, trail) && AllCounted(repo, file, DecoratorUses(ds, qualname, trail))
    decreases |ds|
  {
    hide HandleDecorator, Reflects, UseAt, AllCounted, Bare;
    if ds == [] {
      NothingCounted(repo, file);
    } else {
      DecoratorOk(repo, file, w, ds[0], routers, trail, qualname);
      assert NoneBare(ds, trail) <==> !Bare(ds[0], trail) && NoneBare(ds[1..], trail);
      CountedParts(repo, file, UseAt(ds[0], true, qualname, trail), DecoratorUses(ds[1..], qualname, trail));
      if HandleDecorator(repo, file, w, ds[0], routers, qualname).Ok? {
        DecoratorsOk(repo, file, HandleDecorator(repo, file, w, ds[0], routers, qualname).value, ds[1..], routers,
          trail, qualname);
      }
    }
  }

  lemma {:induction false} BindOk(repo: Repo, file: File, s: Scope, body: seq<Stmt>)
    ensures BindRouters(repo, file, s, body).Ok? <==> PrefixesRead(repo, file, body)
    decreases |body|
  {
    if body != [] {
      BindOneOk(repo, file, s, body[0]);
      hide BindOne, PrefixRead;
      assert PrefixesRead(repo, file, body) <==> PrefixRead(repo, file, body[0]) && PrefixesRead(repo, file, body[1..]);
      if BindOne(repo, file, s, body[0]).Ok? {
        BindOk(repo, file, BindOne(repo, file, s, body[0]).value, body[1..]);
      }
    }
  }

  lemma BindOneOk(repo: Repo, file: File, s: Scope, st: Stmt)
    ensures BindOne(repo, file, s, st).Ok? <==> PrefixRead(repo, file, st)
  {
  }

  lemma {:induction false} BodyOk(repo: Repo, file: File, s: Scope, body: seq<Stmt>, trail: Trail, scope: string)
    requires Reflects(s.routers, trail)
    ensures WalkBody(repo, file, s, body, scope).Ok?
      <==> CleanBody(repo, file, body, trail) && AllCounted(repo, file, UsesOfBody(repo, file, body, trail, scope))
    decreases body, 2
  {
    BindOk(repo, file, s, body);
    hide Reflects, WalkStmts, UsesOfStmts, Hoisted, BindRouters, AllCounted, CleanStmts, PrefixesRead, BoundHere;
    if BindRouters(repo, file, s, body).Ok? {
      HoistingReflects(repo, file, s, body, trail);
      StmtsOk(repo, file, BindRouters(repo, file, s, body).value, body, trail + Hoisted(repo, file, body), scope);
    }
  }

  lemma {:induction false} StmtsOk(repo: Repo, file: File, s: Scope, body: seq<Stmt>, trail: Trail, scope: string)
    requires Reflects(s.routers, trail)
    ensures WalkStmts(repo, file, s, body, scope).Ok?
      <==> CleanStmts(repo, file, body, trail) && AllCounted(repo, file, UsesOfStmts(repo, file, body, trail, scope))
    decreases body, 1
  {
    hide Reflects, WalkStmt, UsesOfStmt, Left, AllCounted, CleanStmt, Walked, BoundWithin;
    if body == [] {
      NothingCounted(repo, file);
    } else {
      var left := Left(repo, file, body[0]);
      StmtOk(repo, file, s, body[0], trail, scope);
      CountedParts(repo, file, UsesOfStmt(repo, file, body[0], trail, scope),
        UsesOfStmts(repo, file, body[1..], trail + left, scope));
      if WalkStmt(repo, file, s, body[0], scope).Ok? {
        var s1 := WalkStmt(repo, file, s, body[0], scope).value;
        StmtWalked(repo, file, s, body[0], trail, scope);
        WalkedReflects(repo, file, s, s1, UsesOfStmt(repo, file, body[0], trail, scope), trail, left,
          BoundWithin(body[0]));
        StmtsOk(repo, file, s1, body[1..], trail + left, scope);
      }
    }
  }

  lemma {:induction false} StmtOk(repo: Repo, file: File, s: Scope, st: Stmt, trail: Trail, scope: string)
    requires Reflects(s.routers, trail)
    ensures WalkStmt(repo, file, s, st, scope).Ok?
      <==> CleanStmt(repo, file, st, trail) && AllCounted(repo, file, UsesOfStmt(repo, file, st, trail, scope))
    decreases st, 1
  {
    hide Reflects, AllCounted, NoneBare, UseAt, DecoratorUses, WalkBody, WalkBlocks, CleanBody, CleanSuites,
      UsesOfBody, UsesOfSuites;
    hide HandleDecorators, HandleCall;
    NothingCounted(repo, file);
    match st
    case FunctionDef(name, decorators, _, body) =>
      FunctionOk(repo, file, s, st, trail, scope);
    case ClassDef(name, _, body) =>
      BodyOk(repo, file, s, body, trail, scope + "." + name);
      assert UsesOfStmt(repo, file, st, trail, scope) == UsesOfBody(repo, file, body, trail, scope + "." + name);
    case ExprStmt(value) =>
      assert UsesOfStmt(repo, file, st, trail, scope) == UseAt(value, false, scope, trail);
      CallOk(repo, file, s.walk, value, s.routers, trail, scope);
    case Block(_, _, blocks, _) =>
      SuitesOk(repo, file, s, blocks, trail, scope);
      assert UsesOfStmt(repo, file, st, trail, scope) == UsesOfSuites(repo, file, blocks, trail, scope);
    case _ =>
      assert UsesOfStmt(repo, file, st, trail, scope) == [];
  }

  lemma CallOk(repo: Repo, file: File, w: Walk, call: Expr, routers: Routers, trail: Trail, scope: string)
    requires Reflects(routers, trail)
    ensures !call.Call? || HandleCall(repo, file, w, call, routers, scope).Ok?
      <==> AllCounted(repo, file, UseAt(call, false, scope, trail))
  {
    NothingCounted(repo, file);
    hide AllCounted, HandleUse, Visible;
    if call.Call? && SiteOf(call.func).Some? && SiteOf(call.func).value.base in routers {
      UseOk(repo, file, w, call, false, routers, trail, scope);
    }
  }

  lemma {:induction false} FunctionOk(repo: Repo, file: File, s: Scope, st: Stmt, trail: Trail, scope: string)
    requires st.FunctionDef? && Reflects(s.routers, trail)
    ensures WalkStmt(repo, file, s, st, scope).Ok?
      <==> CleanStmt(repo, file, st, trail) && AllCounted(repo, file, UsesOfStmt(repo, file, st, trail, scope))
    decreases st, 0
  {
    var qualname := scope + "." + st.name;
    var a, b := DecoratorUses(st.decorators, qualname, trail), UsesOfBody(repo, file, st.body, trail, qualname);
    assert UsesOfStmt(repo, file, st, trail, scope) == a + b;
    hide Reflects, UsesOfBody, UsesOfStmt, DecoratorUses, HandleDecorators, WalkBody, AllCounted, CleanBody, NoneBare;
    CountedParts(repo, file, a, b);
    DecoratorsOk(repo, file, s.walk, st.decorators, s.routers, trail, qualname);
    if HandleDecorators(repo, file, s.walk, st.decorators, s.routers, qualname).Ok? {
      BodyOk(repo, file, Scope(HandleDecorators(repo, file, s.walk, st.decorators, s.routers, qualname).value,
        s.routers), st.body, trail, qualname);
    }
  }

  lemma {:induction false} SuitesOk(repo: Repo, file: File, s: Scope, suites: seq<Suite>, trail: Trail, scope: string)
    requires Reflects(s.routers, trail)
    ensures WalkBlocks(repo, file, s, suites, scope).Ok?
      <==> CleanSuites(repo, file, suites, trail) && AllCounted(repo, file,
        UsesOfSuites(repo, file, suites, trail, scope))
    decreases suites, 0
  {
    hide Reflects, WalkSuite, UsesOfSuite, LeftSuite, AllCounted, CleanSuite, Walked, BoundInSuite;
    if suites == [] {
      NothingCounted(repo, file);
    } else {
      var left := LeftSuite(repo, file, suites[0]);
      SuiteOk(repo, file, s, suites[0], trail, scope);
      CountedParts(repo, file, UsesOfSuite(repo, file, suites[0], trail, scope),
        UsesOfSuites(repo, file, suites[1..], trail + left, scope));
      if WalkSuite(repo, file, s, suites[0], scope).Ok? {
        var s1 := WalkSuite(repo, file, s, suites[0], scope).value;
        SuiteWalked(repo, file, s, suites[0], trail, scope);
        WalkedReflects(repo, file, s, s1, UsesOfSuite(repo, file, suites[0], trail, scope), trail, left,
          BoundInSuite(suites[0]));
        SuitesOk(repo, file, s1, suites[1..], trail + left, scope);
      }
    }
  }

  lemma {:induction false} SuiteOk(repo: Repo, file: File, s: Scope, suite: Suite, trail: Trail, scope: string)
    requires Reflects(s.routers, trail)
    ensures WalkSuite(repo, file, s, suite, scope).Ok?
      <==> CleanSuite(repo, file, suite, trail) && AllCounted(repo, file, UsesOfSuite(repo, file, suite, trail, scope))
    decreases suite, 3
  {
    BodyOk(repo, file, s, suite.body, trail, scope);
  }

  /** Every surface attribute on a name the module binds to a router is the callee of some use. */
  ghost predicate AllUsed(tree: seq<Stmt>, uses: seq<Use>) {
    forall site | site in SitesOfBody(tree) && OnName(site, BoundIn(tree)) :: site.node in Nodes(uses)
  }

  /**
   * The census answers exactly when every router's prefix can be evaluated, no decorator is bare, the routes of
   * every use can be read off it, and no surface attribute on a bound name is anything but a use.
   */
  lemma AnswersIff(repo: Repo, file: File, tree: seq<Stmt>, moduleName: string)
    ensures var uses := UsesOfBody(repo, file, tree, [], moduleName);
      Census(repo, file, tree, moduleName).Ok?
      <==> CleanBody(repo, file, tree, []) && AllCounted(repo, file, uses) && AllUsed(tree, uses)
  {
    var start, uses := Scope(Walk([], {}, {}), map[]), UsesOfBody(repo, file, tree, [], moduleName);
    assert Reflects(start.routers, []);
    BodyOk(repo, file, start, tree, [], moduleName);
    hide WalkBody, UsesOfBody, CleanBody, AllCounted, BoundIn, SitesOfBody, Nodes, Hoisted, LeftStmts;
    if WalkBody(repo, file, start, tree, moduleName).Ok? {
      var w := WalkBody(repo, file, start, tree, moduleName).value.walk;
      BodyWalked(repo, file, start, tree, [], moduleName);
      assert {} + BoundIn(tree) == BoundIn(tree) && {} + Nodes(uses) == Nodes(uses);
      assert w.names == BoundIn(tree) && w.consumed == Nodes(uses);
    }
  }

  /**
   * A module that binds no name to a router is answered for, with nothing, unless a prefix it never uses cannot
   * be read.
   */
  lemma NothingBound(repo: Repo, file: File, tree: seq<Stmt>, moduleName: string)
    requires BoundIn(tree) == {}
    ensures UsesOfBody(repo, file, tree, [], moduleName) == []
    ensures Census(repo, file, tree, moduleName) == Ok(Walk([], {}, {})) <==> CleanBody(repo, file, tree, [])
  {
    var uses := UsesOfBody(repo, file, tree, [], moduleName);
    assert Within([], {});
    NoneToUse(tree, uses);
    hide *;
    BodyOn(repo, file, tree, [], moduleName, {});
    if uses != [] {
      SomeOn(uses, {});
    }
    NothingCounted(repo, file);
    AnswersIff(repo, file, tree, moduleName);
    if Census(repo, file, tree, moduleName).Ok? {
      TreeWalked(repo, file, tree, moduleName);
      NothingWalked(repo, file, Census(repo, file, tree, moduleName).value);
    }
  }

  lemma NoneToUse(tree: seq<Stmt>, uses: seq<Use>)
    requires BoundIn(tree) == {}
    ensures AllUsed(tree, uses)
  {
    hide BoundIn, SitesOfBody;
  }

  lemma SomeOn(uses: seq<Use>, names: set<string>)
    requires On(uses, names) && uses != []
    ensures names != {}
  {
    assert uses[0] in uses;
    assert uses[0].site.base in names;
  }

  lemma NothingWalked(repo: Repo, file: File, w: Walk)
    requires Explains(repo, file, Walk([], {}, {}), w, [])
    ensures w == Walk([], w.names, {})
  {
  }

  /** A module with one use, read without trouble, and no other surface attribute on a bound name. */
  lemma OneUse(repo: Repo, file: File, tree: seq<Stmt>, moduleName: string, u: Use)
    requires UsesOfBody(repo, file, tree, [], moduleName) == [u] && SitesOfBody(tree) == [SpotAt(u.site)]
    requires CleanBody(repo, file, tree, []) && Counted(repo, file, u)
    ensures Census(repo, file, tree, moduleName).Ok?
    ensures Census(repo, file, tree, moduleName).value.routes == RoutesOf(repo, file, u).value
  {
    OneCounted(repo, file, u);
    assert u in [u];
    assert AllUsed(tree, [u]);
    hide Census, UsesOfBody, CleanBody, BoundIn, SitesOfBody, RoutesOf;
    AnswersIff(repo, file, tree, moduleName);
    RoutesFound(repo, file, tree, moduleName);
    assert [u][1..] == [];
    assert RoutesOfAll(repo, file, [u]) == Added(repo, file, u) + RoutesOfAll(repo, file, []);
  }
}
