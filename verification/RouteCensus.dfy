// What the walk of a route module counts, against a reading of the module that knows nothing of the walk:
// which bindings each statement sees, and hence which router calls it makes, with which prefix.
module RouteCensus {
  import opened Prelude
  import opened RouteConstants
  import opened RouteTable
  import opened RouteWalk

  // ---------------------------------------------------------------------------------
  // Bindings and what is visible of them

  /** One target of one `name = APIRouter(prefix=...)`. */
  datatype Binding = Binding(name: string, prefix: string)

  /** Bindings in the order they take effect. */
  type Trail = seq<Binding>

  /** The last one of a name is the one seen. */
  ghost function Visible(trail: Trail, name: string): Option<string> {
    if trail == [] then None
    else if Visible(trail[1..], name).Some? then Visible(trail[1..], name)
    else if trail[0].name == name then Some(trail[0].prefix)
    else None
  }

  lemma {:induction false} VisibleConcat(a: Trail, b: Trail, name: string)
    ensures Visible(a + b, name) == if Visible(b, name).Some? then Visible(b, name) else Visible(a, name)
  {
    if a == [] {
      assert a + b == b;
    } else {
      VisibleConcat(a[1..], b, name);
      assert (a + b)[1..] == a[1..] + b && (a + b)[0] == a[0];
    }
  }

  ghost function TargetBindings(targets: seq<Expr>, prefix: string): Trail {
    if targets == [] then []
    else (if targets[0].Name? then [Binding(targets[0].id, prefix)] else []) + TargetBindings(targets[1..], prefix)
  }

  /** What a statement itself binds to routers, nested statements left out. */
  ghost function BindingsOf(repo: Repo, file: File, st: Stmt): Trail {
    if Assigned(st).Some? && IsApiRouter(Assigned(st).value.0) && PrefixOf(repo, file, Assigned(st).value.0).Ok?
    then TargetBindings(Assigned(st).value.1, PrefixOf(repo, file, Assigned(st).value.0).value)
    else []
  }

  /** `targets = value`, or `target: annotation = value`. */
  ghost predicate Assigns(st: Stmt, value: Expr, targets: seq<Expr>) {
    || st == Assign(targets, value)
    || (st.AnnAssign? && st.given == Some(value) && targets == [st.target])
  }

  lemma {:induction false} TargetsBind(targets: seq<Expr>, prefix: string, b: Binding)
    ensures b in TargetBindings(targets, prefix) <==> Name(b.name) in targets && b.prefix == prefix
  {
    if targets != [] {
      TargetsBind(targets[1..], prefix, b);
    }
  }

  /** A statement binds exactly the plain names among the targets of an `APIRouter(...)`, at the prefix it denotes. */
  lemma BindingTable(repo: Repo, file: File, st: Stmt, b: Binding)
    ensures b in BindingsOf(repo, file, st) <==> exists value, targets ::
      Assigns(st, value, targets) && MakesRouter(value) && Name(b.name) in targets
      && PrefixReads(repo, file, value, b.prefix)
  {
    forall e ensures IsApiRouter(e) <==> MakesRouter(e) {
      RouterIs(e);
    }
    hide PrefixOf, PrefixReads, IsApiRouter, MakesRouter, TargetBindings;
    if Assigned(st).Some? {
      var (value, targets) := Assigned(st).value;
      assert Assigns(st, value, targets);
      TargetsBind(targets, b.prefix, b);
      if IsApiRouter(value) {
        IsCall(value);
        PrefixIs(repo, file, value, b.prefix);
        if PrefixOf(repo, file, value).Ok? {
          TargetsBind(targets, PrefixOf(repo, file, value).value, b);
        }
      }
    }
  }

  lemma IsCall(e: Expr)
    requires IsApiRouter(e)
    ensures e.Call?
  {
  }

  /** A body's own bindings, all of which every statement of the body sees. */
  ghost function Hoisted(repo: Repo, file: File, body: seq<Stmt>): Trail {
    if body == [] then [] else BindingsOf(repo, file, body[0]) + Hoisted(repo, file, body[1..])
  }

  /** What a statement leaves to the statements after it: its blocks share the scope, a function or class does not. */
  ghost function Left(repo: Repo, file: File, st: Stmt): Trail
    decreases st
  {
    if st.Block? then LeftSuites(repo, file, st.blocks) else []
  }

  ghost function LeftStmts(repo: Repo, file: File, body: seq<Stmt>): Trail
    decreases body
  {
    if body == [] then [] else Left(repo, file, body[0]) + LeftStmts(repo, file, body[1..])
  }

  ghost function LeftSuites(repo: Repo, file: File, suites: seq<Suite>): Trail
    decreases suites
  {
    if suites == [] then [] else LeftSuite(repo, file, suites[0]) + LeftSuites(repo, file, suites[1..])
  }

  ghost function LeftSuite(repo: Repo, file: File, suite: Suite): Trail
    decreases suite
  {
    Hoisted(repo, file, suite.body) + LeftStmts(repo, file, suite.body)
  }

  // ---------------------------------------------------------------------------------
  // The uses a reader of the module finds

  /** A surface call on a name that is a router here. */
  ghost function UseAt(call: Expr, decorates: bool, scope: string, trail: Trail): seq<Use> {
    if call.Call? && SiteOf(call.func).Some? && Visible(trail, SiteOf(call.func).value.base).Some? then
      [Use(SiteOf(call.func).value, call, decorates, scope, Visible(trail, SiteOf(call.func).value.base).value)]
    else []
  }

  ghost function DecoratorUses(ds: seq<Expr>, scope: string, trail: Trail): seq<Use> {
    if ds == [] then [] else UseAt(ds[0], true, scope, trail) + DecoratorUses(ds[1..], scope, trail)
  }

  /** The uses a statement makes itself, nested statements left out. */
  ghost function OwnUses(st: Stmt, trail: Trail, scope: string): seq<Use> {
    match st
    case FunctionDef(name, decorators, _, _) => DecoratorUses(decorators, scope + "." + name, trail)
    case ExprStmt(value) => UseAt(value, false, scope, trail)
    case _ => []
  }

  ghost function UsesOfBody(repo: Repo, file: File, body: seq<Stmt>, trail: Trail, scope: string): seq<Use>
    decreases body, 2
  {
    UsesOfStmts(repo, file, body, trail + Hoisted(repo, file, body), scope)
  }

  ghost function UsesOfStmts(repo: Repo, file: File, body: seq<Stmt>, trail: Trail, scope: string): seq<Use>
    decreases body, 1
  {
    if body == [] then []
    else
      UsesOfStmt(repo, file, body[0], trail, scope) +
      UsesOfStmts(repo, file, body[1..], trail + Left(repo, file, body[0]), scope)
  }

  ghost function UsesOfStmt(repo: Repo, file: File, st: Stmt, trail: Trail, scope: string): seq<Use>
    decreases st, 0
  {
    OwnUses(st, trail, scope) +
    match st
    case FunctionDef(name, _, _, body) => UsesOfBody(repo, file, body, trail, scope + "." + name)
    case ClassDef(name, _, body) => UsesOfBody(repo, file, body, trail, scope + "." + name)
    case Block(_, _, blocks, _) => UsesOfSuites(repo, file, blocks, trail, scope)
    case _ => []
  }

  ghost function UsesOfSuites(repo: Repo, file: File, suites: seq<Suite>, trail: Trail, scope: string): seq<Use>
    decreases suites, 0
  {
    if suites == [] then []
    else
      UsesOfSuite(repo, file, suites[0], trail, scope) +
      UsesOfSuites(repo, file, suites[1..], trail + LeftSuite(repo, file, suites[0]), scope)
  }

  ghost function UsesOfSuite(repo: Repo, file: File, suite: Suite, trail: Trail, scope: string): seq<Use>
    decreases suite, 3
  {
    UsesOfBody(repo, file, suite.body, trail, scope)
  }

  // ---------------------------------------------------------------------------------
  // The names a module binds to routers, at any depth

  function TargetNames(targets: seq<Expr>): set<string> {
    if targets == [] then {} else (if targets[0].Name? then {targets[0].id} else {}) + TargetNames(targets[1..])
  }

  function BoundBy(st: Stmt): set<string> {
    if Assigned(st).Some? && IsApiRouter(Assigned(st).value.0) then TargetNames(Assigned(st).value.1) else {}
  }

  function BoundHere(body: seq<Stmt>): set<string> {
    if body == [] then {} else BoundBy(body[0]) + BoundHere(body[1..])
  }

  /** Every name some `name = APIRouter(...)` in the body binds, in functions, classes and walked blocks too. */
  function BoundIn(body: seq<Stmt>): set<string>
    decreases body, 2
  {
    BoundHere(body) + BoundInside(body)
  }

  function BoundInside(body: seq<Stmt>): set<string>
    decreases body, 1
  {
    if body == [] then {} else BoundWithin(body[0]) + BoundInside(body[1..])
  }

  function BoundWithin(st: Stmt): set<string>
    decreases st, 0
  {
    match st
    case FunctionDef(_, _, _, body) => BoundIn(body)
    case ClassDef(_, _, body) => BoundIn(body)
    case Block(_, _, blocks, _) => BoundInSuites(blocks)
    case _ => {}
  }

  function BoundInSuites(suites: seq<Suite>): set<string>
    decreases suites, 0
  {
    if suites == [] then {} else BoundInSuite(suites[0]) + BoundInSuites(suites[1..])
  }

  function BoundInSuite(suite: Suite): set<string>
    decreases suite, 3
  {
    BoundIn(suite.body)
  }

  // ---------------------------------------------------------------------------------
  // Accounting for what a walk accumulates

  /** A use the walk counted: a call on a surface attribute, with routes to read off it. */
  ghost predicate Counted(repo: Repo, file: File, u: Use) {
    u.call.Call? && SiteOf(u.call.func) == Some(u.site) && RoutesOf(repo, file, u).Ok?
  }

  ghost predicate AllCounted(repo: Repo, file: File, uses: seq<Use>) {
    forall u | u in uses :: Counted(repo, file, u)
  }

  /** The routes of a use, none when it would be refused. */
  ghost function Added(repo: Repo, file: File, u: Use): seq<Route> {
    if u.call.Call? && RoutesOf(repo, file, u).Ok? then RoutesOf(repo, file, u).value else []
  }

  ghost function RoutesOfAll(repo: Repo, file: File, uses: seq<Use>): seq<Route> {
    if uses == [] then [] else Added(repo, file, uses[0]) + RoutesOfAll(repo, file, uses[1..])
  }

  ghost function Sites(uses: seq<Use>): seq<Spot> {
    seq(|uses|, i requires 0 <= i < |uses| => SpotAt(uses[i].site))
  }

  ghost function Nodes(uses: seq<Use>): set<nat> {
    set u | u in uses :: u.site.node
  }

  /** `uses` accounts for everything that changed between `w` and `w'`, names apart. */
  ghost predicate Explains(repo: Repo, file: File, w: Walk, w': Walk, uses: seq<Use>) {
    && AllCounted(repo, file, uses)
    && w'.routes == w.routes + RoutesOfAll(repo, file, uses)
    && w'.consumed == w.consumed + Nodes(uses)
  }

  lemma {:induction false} RoutesOfAppend(repo: Repo, file: File, a: seq<Use>, b: seq<Use>)
    ensures RoutesOfAll(repo, file, a + b) == RoutesOfAll(repo, file, a) + RoutesOfAll(repo, file, b)
  {
    hide Added;
    if a == [] {
      assert a + b == b;
    } else {
      RoutesOfAppend(repo, file, a[1..], b);
      assert (a + b)[1..] == a[1..] + b;
    }
  }

  lemma NodesAppend(a: seq<Use>, b: seq<Use>)
    ensures Nodes(a + b) == Nodes(a) + Nodes(b)
  {
  }

  lemma ExplainsAppend(repo: Repo, file: File, w: Walk, w': Walk, w'': Walk, a: seq<Use>, b: seq<Use>)
    requires Explains(repo, file, w, w', a) && Explains(repo, file, w', w'', b)
    ensures Explains(repo, file, w, w'', a + b)
  {
    RoutesOfAppend(repo, file, a, b);
    NodesAppend(a, b);
    AppendCounted(repo, file, a, b);
    ConcatAssoc(w.routes, RoutesOfAll(repo, file, a), RoutesOfAll(repo, file, b));
    UnionAssoc(w.consumed, Nodes(a), Nodes(b));
    hide AllCounted, RoutesOfAll, Nodes;
  }

  lemma AppendCounted(repo: Repo, file: File, a: seq<Use>, b: seq<Use>)
    requires AllCounted(repo, file, a) && AllCounted(repo, file, b)
    ensures AllCounted(repo, file, a + b)
  {
    hide Counted;
  }

  lemma ExplainsNothing(repo: Repo, file: File, w: Walk)
    ensures Explains(repo, file, w, w, [])
  {
  }

  lemma UseExplains(repo: Repo, file: File, w: Walk, u: Use)
    requires Counted(repo, file, u)
    ensures HandleUse(repo, file, w, u).Ok? && Explains(repo, file, w, HandleUse(repo, file, w, u).value, [u])
    ensures HandleUse(repo, file, w, u).value.names == w.names
  {
    assert [u][1..] == [];
    assert RoutesOfAll(repo, file, [u]) == Added(repo, file, u) + RoutesOfAll(repo, file, []);
  }

  /** The dictionary of routers holds what is visible of the trail. */
  ghost predicate Reflects(routers: Routers, trail: Trail) {
    forall name :: Visible(trail, name) == if name in routers then Some(routers[name]) else None
  }

  lemma CallUses(repo: Repo, file: File, w: Walk, call: Expr, decorates: bool, routers: Routers, trail: Trail,
      scope: string)
    requires call.Call? && Reflects(routers, trail)
    requires SiteOf(call.func).Some? && SiteOf(call.func).value.base in routers
    requires HandleUse(repo, file, w, Use(SiteOf(call.func).value, call, decorates, scope,
      routers[SiteOf(call.func).value.base])).Ok?
    ensures var u := Use(SiteOf(call.func).value, call, decorates, scope, routers[SiteOf(call.func).value.base]);
      UseAt(call, decorates, scope, trail) == [u] && Explains(repo, file, w, HandleUse(repo, file, w, u).value, [u])
      && HandleUse(repo, file, w, u).value.names == w.names
  {
    var u := Use(SiteOf(call.func).value, call, decorates, scope, routers[SiteOf(call.func).value.base]);
    assert Visible(trail, u.site.base) == Some(u.prefix);
    UseExplains(repo, file, w, u);
    hide Explains, RoutesOf, HandleUse, Visible;
  }

  lemma OneDecorator(repo: Repo, file: File, w: Walk, d: Expr, routers: Routers, trail: Trail, qualname: string)
    requires HandleDecorator(repo, file, w, d, routers, qualname).Ok? && Reflects(routers, trail)
    ensures Explains(repo, file, w, HandleDecorator(repo, file, w, d, routers, qualname).value,
      UseAt(d, true, qualname, trail))
    ensures HandleDecorator(repo, file, w, d, routers, qualname).value.names == w.names
  {
    hide Explains, HandleUse, Visible;
    if d.Call? && SiteOf(d.func).Some? && SiteOf(d.func).value.base in routers {
      CallUses(repo, file, w, d, true, routers, trail, qualname);
    } else {
      ExplainsNothing(repo, file, w);
    }
  }

  lemma {:induction false} AllDecorators(repo: Repo, file: File, w: Walk, ds: seq<Expr>, routers: Routers,
      trail: Trail, qualname: string)
    requires HandleDecorators(repo, file, w, ds, routers, qualname).Ok? && Reflects(routers, trail)
    ensures Explains(repo, file, w, HandleDecorators(repo, file, w, ds, routers, qualname).value,
      DecoratorUses(ds, qualname, trail))
    ensures HandleDecorators(repo, file, w, ds, routers, qualname).value.names == w.names
    decreases |ds|
  {
    hide Explains, HandleDecorator, Reflects, UseAt;
    if ds == [] {
      ExplainsNothing(repo, file, w);
    } else {
      var w' := HandleDecorator(repo, file, w, ds[0], routers, qualname).value;
      OneDecorator(repo, file, w, ds[0], routers, trail, qualname);
      AllDecorators(repo, file, w', ds[1..], routers, trail, qualname);
      ExplainsAppend(repo, file, w, w', HandleDecorators(repo, file, w, ds, routers, qualname).value,
        UseAt(ds[0], true, qualname, trail), DecoratorUses(ds[1..], qualname, trail));
    }
  }

  lemma OneCall(repo: Repo, file: File, w: Walk, call: Expr, routers: Routers, trail: Trail, scope: string)
    requires call.Call? && HandleCall(repo, file, w, call, routers, scope).Ok? && Reflects(routers, trail)
    ensures Explains(repo, file, w, HandleCall(repo, file, w, call, routers, scope).value,
      UseAt(call, false, scope, trail))
    ensures HandleCall(repo, file, w, call, routers, scope).value.names == w.names
  {
    hide Explains, HandleUse, Visible;
    if SiteOf(call.func).Some? && SiteOf(call.func).value.base in routers {
      CallUses(repo, file, w, call, false, routers, trail, scope);
    } else {
      ExplainsNothing(repo, file, w);
    }
  }

  // ---------------------------------------------------------------------------------
  // The walk finds those uses and binds those names

  /** A stretch of the walk: it counts `uses`, leaves `left` behind and records the names `bound`. */
  ghost predicate Walked(repo: Repo, file: File, s: Scope, s': Scope, uses: seq<Use>, trail: Trail, left: Trail,
      bound: set<string>) {
    Explains(repo, file, s.walk, s'.walk, uses) && Reflects(s'.routers, trail + left)
      && s'.walk.names == s.walk.names + bound
  }

  lemma WalkedThen(repo: Repo, file: File, s: Scope, s': Scope, s'': Scope, trail: Trail,
      a: seq<Use>, left: Trail, bound: set<string>, b: seq<Use>, left': Trail, bound': set<string>)
    requires Walked(repo, file, s, s', a, trail, left, bound)
      && Walked(repo, file, s', s'', b, trail + left, left', bound')
    ensures Walked(repo, file, s, s'', a + b, trail, left + left', bound + bound')
  {
    hide Explains, Reflects;
    ExplainsAppend(repo, file, s.walk, s'.walk, s''.walk, a, b);
    ConcatAssoc(trail, left, left');
    UnionAssoc(s.walk.names, bound, bound');
  }

  lemma WalkedNothing(repo: Repo, file: File, s: Scope, trail: Trail)
    requires Reflects(s.routers, trail)
    ensures Walked(repo, file, s, s, [], trail, [], {})
  {
    assert trail + [] == trail;
    hide Reflects;
    ExplainsNothing(repo, file, s.walk);
  }

  lemma BindsOne(s: Scope, trail: Trail, name: string, prefix: string)
    requires Reflects(s.routers, trail)
    ensures Reflects(s.routers[name := prefix], trail + [Binding(name, prefix)])
  {
    forall x ensures Visible(trail + [Binding(name, prefix)], x)
                  == if x in s.routers[name := prefix] then Some(s.routers[name := prefix][x]) else None
    {
      VisibleConcat(trail, [Binding(name, prefix)], x);
      assert [Binding(name, prefix)][1..] == [];
    }
  }

  lemma {:induction false} TargetsReflect(s: Scope, targets: seq<Expr>, prefix: string, trail: Trail)
    requires Reflects(s.routers, trail)
    ensures var s' := BindTargets(s, targets, prefix);
      && Reflects(s'.routers, trail + TargetBindings(targets, prefix))
      && s'.walk == s.walk.(names := s.walk.names + TargetNames(targets))
    decreases |targets|
  {
    hide Reflects;
    if targets == [] {
      assert trail + [] == trail;
    } else if targets[0].Name? {
      var s' := Scope(s.walk.(names := s.walk.names + {targets[0].id}), s.routers[targets[0].id := prefix]);
      BindsOne(s, trail, targets[0].id, prefix);
      TargetsReflect(s', targets[1..], prefix, trail + [Binding(targets[0].id, prefix)]);
      ConcatAssoc(trail, [Binding(targets[0].id, prefix)], TargetBindings(targets[1..], prefix));
      UnionAssoc(s.walk.names, {targets[0].id}, TargetNames(targets[1..]));
    } else {
      TargetsReflect(s, targets[1..], prefix, trail);
      assert [] + TargetBindings(targets[1..], prefix) == TargetBindings(targets[1..], prefix);
    }
  }

  lemma OneReflects(repo: Repo, file: File, s: Scope, st: Stmt, trail: Trail)
    requires BindOne(repo, file, s, st).Ok? && Reflects(s.routers, trail)
    ensures var s' := BindOne(repo, file, s, st).value;
      && Reflects(s'.routers, trail + BindingsOf(repo, file, st))
      && s'.walk == s.walk.(names := s.walk.names + BoundBy(st))
  {
    hide Reflects, PrefixOf;
    assert trail + [] == trail;
    if Assigned(st).Some? && IsApiRouter(Assigned(st).value.0) {
      TargetsReflect(s, Assigned(st).value.1, PrefixOf(repo, file, Assigned(st).value.0).value, trail);
    }
  }

  /** Binding first: the routers in scope are the inherited ones and then all of the body's own. */
  lemma {:induction false} HoistingReflects(repo: Repo, file: File, s: Scope, body: seq<Stmt>, trail: Trail)
    requires BindRouters(repo, file, s, body).Ok? && Reflects(s.routers, trail)
    ensures var s' := BindRouters(repo, file, s, body).value;
      && Reflects(s'.routers, trail + Hoisted(repo, file, body))
      && s'.walk == s.walk.(names := s.walk.names + BoundHere(body))
    decreases |body|
  {
    hide Reflects, BindOne, BindingsOf, BoundBy;
    if body == [] {
      assert trail + [] == trail;
    } else {
      var s' := BindOne(repo, file, s, body[0]).value;
      OneReflects(repo, file, s, body[0], trail);
      HoistingReflects(repo, file, s', body[1..], trail + BindingsOf(repo, file, body[0]));
      ConcatAssoc(trail, BindingsOf(repo, file, body[0]), Hoisted(repo, file, body[1..]));
      UnionAssoc(s.walk.names, BoundBy(body[0]), BoundHere(body[1..]));
    }
  }

  lemma {:induction false} BodyWalked(repo: Repo, file: File, s: Scope, body: seq<Stmt>, trail: Trail, scope: string)
    requires WalkBody(repo, file, s, body, scope).Ok? && Reflects(s.routers, trail)
    ensures Walked(repo, file, s, WalkBody(repo, file, s, body, scope).value,
      UsesOfBody(repo, file, body, trail, scope),
      trail, Hoisted(repo, file, body) + LeftStmts(repo, file, body), BoundIn(body))
    decreases body, 2
  {
    hide Reflects, WalkStmts, UsesOfStmts, LeftStmts, Hoisted, BoundHere, BoundInside, Explains, BindRouters;
    var hoisted := Hoisted(repo, file, body);
    HoistingReflects(repo, file, s, body, trail);
    var s1 := BindRouters(repo, file, s, body).value;
    StmtsWalked(repo, file, s1, body, trail + hoisted, scope);
    ExplainsNothing(repo, file, s.walk);
    BoundExplainsNothing(repo, file, s.walk, s1.walk);
    var uses := UsesOfStmts(repo, file, body, trail + hoisted, scope);
    WalkedThen(repo, file, s, s1, WalkStmts(repo, file, s1, body, scope).value, trail, [], hoisted, BoundHere(body),
      uses, LeftStmts(repo, file, body), BoundInside(body));
    assert [] + uses == uses;
  }

  lemma BoundExplainsNothing(repo: Repo, file: File, w: Walk, w': Walk)
    requires w'.routes == w.routes && w'.consumed == w.consumed
    ensures Explains(repo, file, w, w', [])
  {
  }

  lemma {:induction false} StmtsWalked(repo: Repo, file: File, s: Scope, body: seq<Stmt>, trail: Trail, scope: string)
    requires WalkStmts(repo, file, s, body, scope).Ok? && Reflects(s.routers, trail)
    ensures Walked(repo, file, s, WalkStmts(repo, file, s, body, scope).value,
      UsesOfStmts(repo, file, body, trail, scope),
      trail, LeftStmts(repo, file, body), BoundInside(body))
    decreases body, 1
  {
    hide Reflects, WalkStmt, UsesOfStmt, Left, BoundWithin, Explains, Walked;
    if body == [] {
      WalkedNothing(repo, file, s, trail);
    } else {
      var s1 := WalkStmt(repo, file, s, body[0], scope).value;
      StmtWalked(repo, file, s, body[0], trail, scope);
      var left := Left(repo, file, body[0]);
      WalkedReflects(repo, file, s, s1, UsesOfStmt(repo, file, body[0], trail, scope), trail, left,
        BoundWithin(body[0]));
      StmtsWalked(repo, file, s1, body[1..], trail + left, scope);
      WalkedThen(repo, file, s, s1, WalkStmts(repo, file, s, body, scope).value, trail,
        UsesOfStmt(repo, file, body[0], trail, scope), left, BoundWithin(body[0]),
        UsesOfStmts(repo, file, body[1..], trail + left, scope), LeftStmts(repo, file, body[1..]),
          BoundInside(body[1..]));
    }
  }

  lemma WalkedReflects(repo: Repo, file: File, s: Scope, s': Scope, uses: seq<Use>, trail: Trail, left: Trail,
      bound: set<string>)
    requires Walked(repo, file, s, s', uses, trail, left, bound)
    ensures Reflects(s'.routers, trail + left)
  {
  }

  lemma {:induction false} StmtWalked(repo: Repo, file: File, s: Scope, st: Stmt, trail: Trail, scope: string)
    requires WalkStmt(repo, file, s, st, scope).Ok? && Reflects(s.routers, trail)
    ensures Walked(repo, file, s, WalkStmt(repo, file, s, st, scope).value, UsesOfStmt(repo, file, st, trail, scope),
      trail, Left(repo, file, st), BoundWithin(st))
    decreases st, 1
  {
    match st
    case FunctionDef(name, decorators, _, body) =>
      FunctionWalked(repo, file, s, st, trail, scope);
    case ClassDef(name, _, body) =>
      ClassWalked(repo, file, s, st, trail, scope);
    case ExprStmt(value) =>
      CallWalked(repo, file, s, st, trail, scope);
    case Block(_, _, blocks, _) =>
      BlocksWalked(repo, file, s, blocks, trail, scope);
      assert UsesOfStmt(repo, file, st, trail, scope) == UsesOfSuites(repo, file, blocks, trail, scope);
    case _ =>
      WalkedNothing(repo, file, s, trail);
  }

  lemma CallWalked(repo: Repo, file: File, s: Scope, st: Stmt, trail: Trail, scope: string)
    requires st.ExprStmt? && WalkStmt(repo, file, s, st, scope).Ok? && Reflects(s.routers, trail)
    ensures Walked(repo, file, s, WalkStmt(repo, file, s, st, scope).value, UsesOfStmt(repo, file, st, trail, scope),
      trail, Left(repo, file, st), BoundWithin(st))
  {
    assert UsesOfStmt(repo, file, st, trail, scope) == UseAt(st.value, false, scope, trail);
    hide Reflects, Explains, UseAt, UsesOfStmt;
    assert trail + [] == trail;
    if st.value.Call? {
      OneCall(repo, file, s.walk, st.value, s.routers, trail, scope);
    } else {
      ExplainsNothing(repo, file, s.walk);
      assert UseAt(st.value, false, scope, trail) == [] by {
        NoUse(st.value, scope, trail);
      }
    }
  }

  lemma NoUse(e: Expr, scope: string, trail: Trail)
    requires !e.Call?
    ensures UseAt(e, false, scope, trail) == []
  {
  }

  lemma {:induction false} ClassWalked(repo: Repo, file: File, s: Scope, st: Stmt, trail: Trail, scope: string)
    requires st.ClassDef? && WalkStmt(repo, file, s, st, scope).Ok? && Reflects(s.routers, trail)
    ensures Walked(repo, file, s, WalkStmt(repo, file, s, st, scope).value, UsesOfStmt(repo, file, st, trail, scope),
      trail, Left(repo, file, st), BoundWithin(st))
    decreases st, 0
  {
    var inner := UsesOfBody(repo, file, st.body, trail, scope + "." + st.name);
    assert UsesOfStmt(repo, file, st, trail, scope) == inner;
    hide Reflects, Explains, UsesOfBody, UsesOfStmt, WalkBody, BoundIn, Hoisted, LeftStmts;
    BodyWalked(repo, file, s, st.body, trail, scope + "." + st.name);
    assert trail + [] == trail;
  }

  lemma {:induction false} FunctionWalked(repo: Repo, file: File, s: Scope, st: Stmt, trail: Trail, scope: string)
    requires st.FunctionDef? && WalkStmt(repo, file, s, st, scope).Ok? && Reflects(s.routers, trail)
    ensures Walked(repo, file, s, WalkStmt(repo, file, s, st, scope).value, UsesOfStmt(repo, file, st, trail, scope),
      trail, Left(repo, file, st), BoundWithin(st))
    decreases st, 0
  {
    var qualname := scope + "." + st.name;
    var a, b := DecoratorUses(st.decorators, qualname, trail), UsesOfBody(repo, file, st.body, trail, qualname);
    assert UsesOfStmt(repo, file, st, trail, scope) == a + b;
    hide Reflects, Explains, UsesOfBody, UsesOfStmt, DecoratorUses, HandleDecorators, WalkBody, BoundIn, Hoisted,
      LeftStmts;
    var w1 := HandleDecorators(repo, file, s.walk, st.decorators, s.routers, qualname).value;
    AllDecorators(repo, file, s.walk, st.decorators, s.routers, trail, qualname);
    BodyWalked(repo, file, Scope(w1, s.routers), st.body, trail, qualname);
    ExplainsAppend(repo, file, s.walk, w1, WalkBody(repo, file, Scope(w1, s.routers), st.body, qualname).value.walk,
      a, b);
    assert trail + [] == trail;
  }

  lemma {:induction false} BlocksWalked(repo: Repo, file: File, s: Scope, blocks: seq<Suite>, trail: Trail,
      scope: string)
    requires WalkBlocks(repo, file, s, blocks, scope).Ok? && Reflects(s.routers, trail)
    ensures Walked(repo, file, s, WalkBlocks(repo, file, s, blocks, scope).value,
      UsesOfSuites(repo, file, blocks, trail, scope),
      trail, LeftSuites(repo, file, blocks), BoundInSuites(blocks))
    decreases blocks, 0
  {
    hide Reflects, WalkSuite, UsesOfSuite, LeftSuite, BoundInSuite, Explains, Walked;
    if blocks == [] {
      WalkedNothing(repo, file, s, trail);
    } else {
      var s1 := WalkSuite(repo, file, s, blocks[0], scope).value;
      SuiteWalked(repo, file, s, blocks[0], trail, scope);
      var left := LeftSuite(repo, file, blocks[0]);
      WalkedReflects(repo, file, s, s1, UsesOfSuite(repo, file, blocks[0], trail, scope), trail, left,
        BoundInSuite(blocks[0]));
      BlocksWalked(repo, file, s1, blocks[1..], trail + left, scope);
      WalkedThen(repo, file, s, s1, WalkBlocks(repo, file, s, blocks, scope).value, trail,
        UsesOfSuite(repo, file, blocks[0], trail, scope), left, BoundInSuite(blocks[0]),
        UsesOfSuites(repo, file, blocks[1..], trail + left, scope), LeftSuites(repo, file, blocks[1..]),
          BoundInSuites(blocks[1..]));
    }
  }

  lemma {:induction false} SuiteWalked(repo: Repo, file: File, s: Scope, suite: Suite, trail: Trail, scope: string)
    requires WalkSuite(repo, file, s, suite, scope).Ok? && Reflects(s.routers, trail)
    ensures Walked(repo, file, s, WalkSuite(repo, file, s, suite, scope).value,
      UsesOfSuite(repo, file, suite, trail, scope),
      trail, LeftSuite(repo, file, suite), BoundInSuite(suite))
    decreases suite, 3
  {
    hide Reflects, Explains, Walked, UsesOfBody, WalkBody, Hoisted, LeftStmts, BoundIn;
    BodyWalked(repo, file, s, suite.body, trail, scope);
  }

  // ---------------------------------------------------------------------------------
  // The uses sit at sites of the file, one each, on names the file binds

  lemma SitesAppend(a: seq<Use>, b: seq<Use>)
    ensures multiset(Sites(a + b)) == multiset(Sites(a)) + multiset(Sites(b))
  {
    assert Sites(a + b) == Sites(a) + Sites(b);
  }

  /** Each use takes one of the sites. */
  ghost predicate AtSites(uses: seq<Use>, sites: seq<Spot>) {
    multiset(Sites(uses)) <= multiset(sites)
  }

  lemma AtSitesAppend(a: seq<Use>, here: seq<Spot>, b: seq<Use>, there: seq<Spot>)
    requires AtSites(a, here) && AtSites(b, there)
    ensures AtSites(a + b, here + there)
  {
    SitesAppend(a, b);
    hide Sites;
  }

  lemma AtMoreSites(uses: seq<Use>, before: seq<Spot>, sites: seq<Spot>, after: seq<Spot>)
    requires AtSites(uses, sites)
    ensures AtSites(uses, before + sites + after) && AtSites([], sites)
  {
    hide Sites;
    assert Sites([]) == [] by {
      NoSites();
    }
  }

  lemma NoSites()
    ensures Sites([]) == []
  {
  }

  lemma CallSite(call: Expr, decorates: bool, scope: string, trail: Trail)
    ensures AtSites(UseAt(call, decorates, scope, trail), SitesIn(call))
  {
    hide Visible;
    if call.Call? && SiteOf(call.func).Some? && Visible(trail, SiteOf(call.func).value.base).Some? {
      var spot := SpotAt(SiteOf(call.func).value);
      assert SpotOf(call.func) == Some(spot);
      assert Sites(UseAt(call, decorates, scope, trail)) == [spot];
      assert spot in SitesIn(call.func);
    }
  }

  lemma {:induction false} DecoratorSites(ds: seq<Expr>, scope: string, trail: Trail)
    ensures AtSites(DecoratorUses(ds, scope, trail), SitesInAll(ds))
  {
    hide AtSites, UseAt, SitesIn;
    if ds == [] {
      NothingAtSites();
    } else {
      CallSite(ds[0], true, scope, trail);
      DecoratorSites(ds[1..], scope, trail);
      AtSitesAppend(UseAt(ds[0], true, scope, trail), SitesIn(ds[0]), DecoratorUses(ds[1..], scope, trail),
        SitesInAll(ds[1..]));
    }
  }

  lemma NothingAtSites()
    ensures forall sites :: AtSites([], sites)
  {
    NoSites();
  }

  lemma {:induction false} BodySites(repo: Repo, file: File, body: seq<Stmt>, trail: Trail, scope: string)
    ensures AtSites(UsesOfBody(repo, file, body, trail, scope), SitesOfBody(body))
    decreases body, 2
  {
    StmtsSites(repo, file, body, trail + Hoisted(repo, file, body), scope);
  }

  lemma {:induction false} StmtsSites(repo: Repo, file: File, body: seq<Stmt>, trail: Trail, scope: string)
    ensures AtSites(UsesOfStmts(repo, file, body, trail, scope), SitesOfBody(body))
    decreases body, 1
  {
    hide AtSites, UsesOfStmt, SitesOfStmt, Left;
    if body == [] {
      NothingAtSites();
    } else {
      var trail' := trail + Left(repo, file, body[0]);
      StmtSites(repo, file, body[0], trail, scope);
      StmtsSites(repo, file, body[1..], trail', scope);
      AtSitesAppend(UsesOfStmt(repo, file, body[0], trail, scope), SitesOfStmt(body[0]),
        UsesOfStmts(repo, file, body[1..], trail', scope), SitesOfBody(body[1..]));
    }
  }

  lemma {:induction false} StmtSites(repo: Repo, file: File, st: Stmt, trail: Trail, scope: string)
    ensures AtSites(UsesOfStmt(repo, file, st, trail, scope), SitesOfStmt(st))
    decreases st, 1
  {
    hide AtSites, UseAt, DecoratorUses, SitesIn, SitesInAll, SitesOfBody, SitesOfSuites, UsesOfBody, UsesOfSuites;
    NothingAtSites();
    match st
    case FunctionDef(name, decorators, header, body) =>
      var qualname := scope + "." + name;
      var a, b := DecoratorUses(decorators, qualname, trail), UsesOfBody(repo, file, body, trail, qualname);
      DecoratorSites(decorators, qualname, trail);
      BodySites(repo, file, body, trail, qualname);
      AtMoreSites(a, [], SitesInAll(decorators), SitesInAll(header));
      assert [] + SitesInAll(decorators) == SitesInAll(decorators);
      AtSitesAppend(a, SitesInAll(decorators) + SitesInAll(header), b, SitesOfBody(body));
    case ClassDef(name, header, body) =>
      var b := UsesOfBody(repo, file, body, trail, scope + "." + name);
      BodySites(repo, file, body, trail, scope + "." + name);
      AtSitesAppend([], SitesInAll(header), b, SitesOfBody(body));
    case ExprStmt(value) =>
      CallSite(value, false, scope, trail);
      assert UseAt(value, false, scope, trail) + [] == UseAt(value, false, scope, trail);
    case Block(_, header, blocks, unwalked) =>
      var b := UsesOfSuites(repo, file, blocks, trail, scope);
      SuitesSites(repo, file, blocks, trail, scope);
      assert [] + b == b;
      AtMoreSites(b, SitesInAll(header), SitesOfSuites(blocks), SitesOfSuites(unwalked));
    case _ =>
      assert UsesOfStmt(repo, file, st, trail, scope) == [];
  }

  lemma {:induction false} SuitesSites(repo: Repo, file: File, suites: seq<Suite>, trail: Trail, scope: string)
    ensures AtSites(UsesOfSuites(repo, file, suites, trail, scope), SitesOfSuites(suites))
    decreases suites, 0
  {
    hide AtSites, UsesOfSuite, SitesOfSuite, LeftSuite;
    if suites == [] {
      NothingAtSites();
    } else {
      var trail' := trail + LeftSuite(repo, file, suites[0]);
      SuiteSites(repo, file, suites[0], trail, scope);
      SuitesSites(repo, file, suites[1..], trail', scope);
      AtSitesAppend(UsesOfSuite(repo, file, suites[0], trail, scope), SitesOfSuite(suites[0]),
        UsesOfSuites(repo, file, suites[1..], trail', scope), SitesOfSuites(suites[1..]));
    }
  }

  lemma {:induction false} SuiteSites(repo: Repo, file: File, suite: Suite, trail: Trail, scope: string)
    ensures AtSites(UsesOfSuite(repo, file, suite, trail, scope), SitesOfSuite(suite))
    decreases suite, 3
  {
    BodySites(repo, file, suite.body, trail, scope);
  }

  /** Nothing outside `names` is visible. */
  ghost predicate Within(trail: Trail, names: set<string>) {
    forall name :: Visible(trail, name).Some? ==> name in names
  }

  lemma WithinConcat(a: Trail, b: Trail, names: set<string>)
    requires Within(a, names) && Within(b, names)
    ensures Within(a + b, names)
  {
    forall name | Visible(a + b, name).Some? ensures name in names {
      VisibleConcat(a, b, name);
    }
  }

  lemma OnlyOneVisible(target: Expr, prefix: string)
    requires target.Name?
    ensures forall x :: Visible([Binding(target.id, prefix)], x) == if x == target.id then Some(prefix) else None
  {
    assert [Binding(target.id, prefix)][1..] == [];
  }

  lemma {:induction false} TargetsWithin(targets: seq<Expr>, prefix: string, names: set<string>)
    requires TargetNames(targets) <= names
    ensures Within(TargetBindings(targets, prefix), names)
  {
    if targets != [] {
      TargetsWithin(targets[1..], prefix, names);
      var first := if targets[0].Name? then [Binding(targets[0].id, prefix)] else [];
      assert Within(first, names) by {
        if targets[0].Name? {
          OnlyOneVisible(targets[0], prefix);
        }
      }
      hide Within;
      WithinConcat(first, TargetBindings(targets[1..], prefix), names);
    }
  }

  lemma {:induction false} HoistedWithin(repo: Repo, file: File, body: seq<Stmt>, names: set<string>)
    requires BoundHere(body) <= names
    ensures Within(Hoisted(repo, file, body), names)
  {
    if body != [] {
      HoistedWithin(repo, file, body[1..], names);
      BindingsWithin(repo, file, body[0], names);
      hide Within, BindingsOf;
      WithinConcat(BindingsOf(repo, file, body[0]), Hoisted(repo, file, body[1..]), names);
    }
  }

  lemma BindingsWithin(repo: Repo, file: File, st: Stmt, names: set<string>)
    requires BoundBy(st) <= names
    ensures Within(BindingsOf(repo, file, st), names)
  {
    if Assigned(st).Some? && IsApiRouter(Assigned(st).value.0) && PrefixOf(repo, file, Assigned(st).value.0).Ok? {
      TargetsWithin(Assigned(st).value.1, PrefixOf(repo, file, Assigned(st).value.0).value, names);
    }
  }

  lemma {:induction false} LeftStmtsWithin(repo: Repo, file: File, body: seq<Stmt>, names: set<string>)
    requires BoundInside(body) <= names
    ensures Within(LeftStmts(repo, file, body), names)
    decreases body, 1
  {
    if body != [] {
      LeftWithin(repo, file, body[0], names);
      LeftStmtsWithin(repo, file, body[1..], names);
      hide Within, Left;
      WithinConcat(Left(repo, file, body[0]), LeftStmts(repo, file, body[1..]), names);
    }
  }

  lemma {:induction false} LeftWithin(repo: Repo, file: File, st: Stmt, names: set<string>)
    requires BoundWithin(st) <= names
    ensures Within(Left(repo, file, st), names)
    decreases st, 0
  {
    if st.Block? {
      LeftSuitesWithin(repo, file, st.blocks, names);
    }
  }

  lemma {:induction false} LeftSuitesWithin(repo: Repo, file: File, suites: seq<Suite>, names: set<string>)
    requires BoundInSuites(suites) <= names
    ensures Within(LeftSuites(repo, file, suites), names)
    decreases suites, 0
  {
    if suites != [] {
      LeftSuiteWithin(repo, file, suites[0], names);
      LeftSuitesWithin(repo, file, suites[1..], names);
      hide Within, LeftSuite;
      WithinConcat(LeftSuite(repo, file, suites[0]), LeftSuites(repo, file, suites[1..]), names);
    }
  }

  lemma {:induction false} LeftSuiteWithin(repo: Repo, file: File, suite: Suite, names: set<string>)
    requires BoundInSuite(suite) <= names
    ensures Within(LeftSuite(repo, file, suite), names)
    decreases suite, 3
  {
    HoistedWithin(repo, file, suite.body, names);
    LeftStmtsWithin(repo, file, suite.body, names);
    hide Within, Hoisted, LeftStmts;
    WithinConcat(Hoisted(repo, file, suite.body), LeftStmts(repo, file, suite.body), names);
  }

  /** Uses on these names only. */
  ghost predicate On(uses: seq<Use>, names: set<string>) {
    forall u | u in uses :: u.site.base in names
  }

  lemma OnAppend(a: seq<Use>, b: seq<Use>, names: set<string>)
    requires On(a, names) && On(b, names)
    ensures On(a + b, names)
  {
  }

  lemma CallOn(call: Expr, decorates: bool, scope: string, trail: Trail, names: set<string>)
    requires Within(trail, names)
    ensures On(UseAt(call, decorates, scope, trail), names)
  {
    hide Visible, SiteOf;
  }

  lemma {:induction false} DecoratorsOn(ds: seq<Expr>, scope: string, trail: Trail, names: set<string>)
    requires Within(trail, names)
    ensures On(DecoratorUses(ds, scope, trail), names)
  {
    if ds != [] {
      CallOn(ds[0], true, scope, trail, names);
      DecoratorsOn(ds[1..], scope, trail, names);
      hide On, UseAt, Within;
      OnAppend(UseAt(ds[0], true, scope, trail), DecoratorUses(ds[1..], scope, trail), names);
    }
  }

  lemma {:induction false} BodyOn(repo: Repo, file: File, body: seq<Stmt>, trail: Trail, scope: string,
      names: set<string>)
    requires Within(trail, names) && BoundIn(body) <= names
    ensures On(UsesOfBody(repo, file, body, trail, scope), names)
    decreases body, 2
  {
    hide Within, On, UsesOfStmts, Hoisted, BoundHere, BoundInside;
    HoistedWithin(repo, file, body, names);
    WithinConcat(trail, Hoisted(repo, file, body), names);
    StmtsOn(repo, file, body, trail + Hoisted(repo, file, body), scope, names);
  }

  lemma {:induction false} StmtsOn(repo: Repo, file: File, body: seq<Stmt>, trail: Trail, scope: string,
      names: set<string>)
    requires Within(trail, names) && BoundInside(body) <= names
    ensures On(UsesOfStmts(repo, file, body, trail, scope), names)
    decreases body, 1
  {
    if body != [] {
      var left := Left(repo, file, body[0]);
      hide Within, On, UsesOfStmt, Left, BoundWithin;
      StmtOn(repo, file, body[0], trail, scope, names);
      LeftWithin(repo, file, body[0], names);
      WithinConcat(trail, left, names);
      StmtsOn(repo, file, body[1..], trail + left, scope, names);
      OnAppend(UsesOfStmt(repo, file, body[0], trail, scope), UsesOfStmts(repo, file, body[1..], trail + left, scope),
        names);
    }
  }

  lemma {:induction false} StmtOn(repo: Repo, file: File, st: Stmt, trail: Trail, scope: string, names: set<string>)
    requires Within(trail, names) && BoundWithin(st) <= names
    ensures On(UsesOfStmt(repo, file, st, trail, scope), names)
    decreases st, 0
  {
    hide Within, DecoratorUses, UseAt, UsesOfBody, UsesOfSuites, BoundIn, BoundInSuites;
    match st
    case FunctionDef(name, decorators, _, body) =>
      DecoratorsOn(decorators, scope + "." + name, trail, names);
      BodyOn(repo, file, body, trail, scope + "." + name, names);
    case ClassDef(name, _, body) =>
      BodyOn(repo, file, body, trail, scope + "." + name, names);
    case ExprStmt(value) =>
      CallOn(value, false, scope, trail, names);
    case Block(_, _, blocks, _) =>
      SuitesOn(repo, file, blocks, trail, scope, names);
    case _ =>
  }

  lemma {:induction false} SuitesOn(repo: Repo, file: File, suites: seq<Suite>, trail: Trail, scope: string,
      names: set<string>)
    requires Within(trail, names) && BoundInSuites(suites) <= names
    ensures On(UsesOfSuites(repo, file, suites, trail, scope), names)
    decreases suites, 0
  {
    if suites != [] {
      var left := LeftSuite(repo, file, suites[0]);
      hide Within, On, UsesOfSuite, LeftSuite, BoundInSuite;
      SuiteOn(repo, file, suites[0], trail, scope, names);
      LeftSuiteWithin(repo, file, suites[0], names);
      WithinConcat(trail, left, names);
      SuitesOn(repo, file, suites[1..], trail + left, scope, names);
      OnAppend(UsesOfSuite(repo, file, suites[0], trail, scope),
        UsesOfSuites(repo, file, suites[1..], trail + left, scope), names);
    }
  }

  lemma {:induction false} SuiteOn(repo: Repo, file: File, suite: Suite, trail: Trail, scope: string,
      names: set<string>)
    requires Within(trail, names) && BoundInSuite(suite) <= names
    ensures On(UsesOfSuite(repo, file, suite, trail, scope), names)
    decreases suite, 3
  {
    BodyOn(repo, file, suite.body, trail, scope, names);
  }

  // ---------------------------------------------------------------------------------
  // Completeness: nothing skipped, nothing counted twice

  /** Attribute nodes are distinct objects: no two surface sites of the file share an identity. */
  ghost predicate NodesDistinct(tree: seq<Stmt>) {
    var sites := SitesOfBody(tree);
    forall i, j :: 0 <= i < j < |sites| ==> sites[i].node != sites[j].node
  }

  /** The routes read off one attribute node. */
  ghost function RoutesAt(routes: seq<Route>, node: nat): seq<Route> {
    if routes == [] then []
    else (if routes[0].site == node then [routes[0]] else []) + RoutesAt(routes[1..], node)
  }

  /** At that node are exactly the routes of the table: one per verb, in order, and no other. */
  ghost predicate CountedOnce(repo: Repo, file: File, w: Walk, u: Use) {
    u.call.Call? && RoutesFor(repo, file, u, RoutesAt(w.routes, u.site.node))
  }

  lemma {:induction false} RoutesAtAppend(a: seq<Route>, b: seq<Route>, node: nat)
    ensures RoutesAt(a + b, node) == RoutesAt(a, node) + RoutesAt(b, node)
  {
    if a == [] {
      assert a + b == b;
    } else {
      RoutesAtAppend(a[1..], b, node);
      assert (a + b)[1..] == a[1..] + b && (a + b)[0] == a[0];
    }
  }

  lemma {:induction false} RoutesAtUniform(routes: seq<Route>, node: nat, same: bool)
    requires forall r | r in routes :: (r.site == node) == same
    ensures RoutesAt(routes, node) == if same then routes else []
  {
    if routes != [] {
      RoutesAtUniform(routes[1..], node, same);
      assert routes == [routes[0]] + routes[1..];
    }
  }

  lemma AddedAt(repo: Repo, file: File, u: Use, node: nat)
    ensures RoutesAt(Added(repo, file, u), node) == if u.site.node == node then Added(repo, file, u) else []
  {
    RoutesAtUniform(Added(repo, file, u), node, u.site.node == node);
  }

  lemma {:induction false} NoneAt(repo: Repo, file: File, uses: seq<Use>, node: nat)
    requires forall i | 0 <= i < |uses| :: uses[i].site.node != node
    ensures RoutesAt(RoutesOfAll(repo, file, uses), node) == []
  {
    if uses != [] {
      NoneAt(repo, file, uses[1..], node);
      AddedAt(repo, file, uses[0], node);
      hide Added;
      RoutesAtAppend(Added(repo, file, uses[0]), RoutesOfAll(repo, file, uses[1..]), node);
    }
  }

  lemma {:induction false} OneAt(repo: Repo, file: File, uses: seq<Use>, k: nat)
    requires k < |uses| && forall i, j :: 0 <= i < j < |uses| ==> uses[i].site.node != uses[j].site.node
    ensures RoutesAt(RoutesOfAll(repo, file, uses), uses[k].site.node) == Added(repo, file, uses[k])
  {
    var node := uses[k].site.node;
    assert RoutesOfAll(repo, file, uses) == Added(repo, file, uses[0]) + RoutesOfAll(repo, file, uses[1..]);
    hide Added, RoutesOfAll, RoutesAt;
    AddedAt(repo, file, uses[0], node);
    if k == 0 {
      NoneAt(repo, file, uses[1..], node);
    } else {
      OneAt(repo, file, uses[1..], k - 1);
    }
    RoutesAtAppend(Added(repo, file, uses[0]), RoutesOfAll(repo, file, uses[1..]), node);
  }

  lemma Twice<T>(s: seq<T>, i: nat, j: nat)
    requires i < j < |s| && s[i] == s[j]
    ensures multiset(s)[s[i]] >= 2
  {
    assert s == s[..j] + [s[j]] + s[j + 1..];
    assert s[i] in s[..j];
    assert s[i] in multiset(s[..j]);
  }

  lemma {:induction false} Once<T(!new)>(s: seq<T>, x: T)
    requires Distinct(s)
    ensures multiset(s)[x] <= 1
  {
    if s != [] {
      Once(s[1..], x);
      assert s == [s[0]] + s[1..];
      assert x == s[0] ==> x !in multiset(s[1..]);
    }
  }

  lemma UsesDistinct(tree: seq<Stmt>, uses: seq<Use>)
    requires NodesDistinct(tree) && AtSites(uses, SitesOfBody(tree))
    ensures forall i, j :: 0 <= i < j < |uses| ==> uses[i].site.node != uses[j].site.node
  {
    var sites := SitesOfBody(tree);
    forall i, j | 0 <= i < j < |uses| ensures uses[i].site.node != uses[j].site.node {
      var a, b := Sites(uses)[i], Sites(uses)[j];
      InTree(tree, uses, i);
      InTree(tree, uses, j);
      if a == b {
        Twice(Sites(uses), i, j);
        Once(sites, a);
      }
    }
  }

  lemma InTree(tree: seq<Stmt>, uses: seq<Use>, i: nat)
    requires i < |uses| && AtSites(uses, SitesOfBody(tree))
    ensures SpotAt(uses[i].site) in SitesOfBody(tree)
  {
    assert Sites(uses)[i] in multiset(Sites(uses));
  }

  lemma AddedIsCounted(repo: Repo, file: File, w: Walk, u: Use)
    requires Counted(repo, file, u) && RoutesAt(w.routes, u.site.node) == Added(repo, file, u)
    ensures CountedOnce(repo, file, w, u)
  {
    RoutesOfTable(repo, file, u, RoutesAt(w.routes, u.site.node));
    hide RoutesFor, RoutesOf, RoutesAt;
  }

  lemma SiteIsUsed(tree: seq<Stmt>, w: Walk, uses: seq<Use>, site: Spot)
    requires NodesDistinct(tree) && AtSites(uses, SitesOfBody(tree))
    requires site in SitesOfBody(tree) && site.node in Nodes(uses)
    ensures exists u :: u in uses && SpotAt(u.site) == site
  {
    var u :| u in uses && u.site.node == site.node;
    var k :| 0 <= k < |uses| && uses[k] == u;
    InTree(tree, uses, k);
    var sites := SitesOfBody(tree);
    var i :| 0 <= i < |sites| && sites[i] == site;
    var j :| 0 <= j < |sites| && sites[j] == SpotAt(u.site);
    assert i == j;
  }

  lemma {:induction false} RouteHasUse(repo: Repo, file: File, uses: seq<Use>, r: Route)
    requires r in RoutesOfAll(repo, file, uses)
    ensures exists u :: u in uses && u.site.node == r.site
  {
    if r in Added(repo, file, uses[0]) {
      assert uses[0].site.node == r.site;
    } else {
      RouteHasUse(repo, file, uses[1..], r);
      var u :| u in uses[1..] && u.site.node == r.site;
      assert u in uses;
    }
  }

  ghost predicate UsedAt(uses: seq<Use>, site: Spot) {
    exists u :: u in uses && SpotAt(u.site) == site
  }

  /** What the walk of a whole module did, site by site. */
  lemma TreeWalked(repo: Repo, file: File, tree: seq<Stmt>, moduleName: string)
    requires Census(repo, file, tree, moduleName).Ok?
    ensures var w, uses := Census(repo, file, tree, moduleName).value, UsesOfBody(repo, file, tree, [], moduleName);
      && Explains(repo, file, Walk([], {}, {}), w, uses) && w.names == BoundIn(tree)
      && AtSites(uses, SitesOfBody(tree)) && On(uses, BoundIn(tree))
      && NothingMissed(w, SitesOfBody(tree))
  {
    var start := Scope(Walk([], {}, {}), map[]);
    hide WalkBody, UsesOfBody, Explains, AtSites, On, BoundIn, Hoisted, LeftStmts;
    assert Reflects(start.routers, []) && Within([], BoundIn(tree));
    BodyWalked(repo, file, start, tree, [], moduleName);
    BodySites(repo, file, tree, [], moduleName);
    BodyOn(repo, file, tree, [], moduleName, BoundIn(tree));
    assert {} + BoundIn(tree) == BoundIn(tree);
  }

  /**
   * If the census answers, it found exactly the names the module binds to routers, and exactly the uses a
   * reader finds: the surface attributes that become routes are those on such a name, wherever they stand;
   * each is counted exactly once, with the prefix visible there; and no route comes from anywhere else.
   */
  lemma CensusComplete(repo: Repo, file: File, tree: seq<Stmt>, moduleName: string)
    requires NodesDistinct(tree) && Census(repo, file, tree, moduleName).Ok?
    ensures var w, uses := Census(repo, file, tree, moduleName).value, UsesOfBody(repo, file, tree, [], moduleName);
      && w.names == BoundIn(tree) && w.routes == RoutesOfAll(repo, file, uses)
      && (forall site | site in SitesOfBody(tree) :: UsedAt(uses, site) <==> OnName(site, BoundIn(tree)))
      && (forall u | u in uses :: SpotAt(u.site) in SitesOfBody(tree) && CountedOnce(repo, file, w, u))
      && (forall r | r in w.routes :: exists u :: u in uses && u.site.node == r.site)
  {
    var w, uses := Census(repo, file, tree, moduleName).value, UsesOfBody(repo, file, tree, [], moduleName);
    TreeWalked(repo, file, tree, moduleName);
    hide Census, UsesOfBody, BoundIn;
    UsesDistinct(tree, uses);
    forall u | u in uses ensures CountedOnce(repo, file, w, u) && SpotAt(u.site) in SitesOfBody(tree) {
      EachCounted(repo, file, tree, w, uses, u);
    }
    forall site | site in SitesOfBody(tree) && OnName(site, w.names) ensures UsedAt(uses, site) {
      SiteIsUsed(tree, w, uses, site);
    }
    forall r | r in w.routes ensures exists u :: u in uses && u.site.node == r.site {
      RouteHasUse(repo, file, uses, r);
    }
  }

  /** What each use adds is what the table says of it. */
  ghost predicate Tabled(repo: Repo, file: File, uses: seq<Use>) {
    forall u | u in uses :: u.call.Call? && RoutesFor(repo, file, u, Added(repo, file, u))
  }

  lemma AreTabled(repo: Repo, file: File, uses: seq<Use>)
    requires AllCounted(repo, file, uses)
    ensures Tabled(repo, file, uses)
  {
    forall u | u in uses ensures u.call.Call? && RoutesFor(repo, file, u, Added(repo, file, u)) {
      assert Counted(repo, file, u);
      RoutesOfTable(repo, file, u, Added(repo, file, u));
      hide RoutesFor, RoutesOf;
    }
  }

  /** What `routes_in` answers: the routes of those uses, or those of the mounted router alone, in order. */
  lemma RoutesInAre(repo: Repo, file: File, tree: seq<Stmt>, moduleName: string, mounted: Option<string>)
    requires RoutesIn(repo, file, tree, moduleName, mounted).Ok?
    ensures var answer := RoutesIn(repo, file, tree, moduleName, mounted).value;
      var all := RoutesOfAll(repo, file, UsesOfBody(repo, file, tree, [], moduleName));
      && Ordered(answer)
      && multiset(answer) == multiset(if mounted.None? then all else OfRouter(all, mounted.value))
      && (mounted.Some? ==> mounted.value in BoundIn(tree))
    ensures var answer := RoutesIn(repo, file, tree, moduleName, mounted).value;
      var all := RoutesOfAll(repo, file, UsesOfBody(repo, file, tree, [], moduleName));
      && (forall i, j | 0 <= i < j < |answer| :: PathThenVerb(answer[i], answer[j]))
      && (forall r :: multiset(answer)[r] == if Asked(r, mounted) then multiset(all)[r] else 0)
    ensures Tabled(repo, file, UsesOfBody(repo, file, tree, [], moduleName))
  {
    var w := Census(repo, file, tree, moduleName).value;
    AnswerSorted(repo, file, tree, moduleName, mounted);
    hide *;
    RoutesFound(repo, file, tree, moduleName);
    SortedIs(if mounted.None? then w.routes else OfRouter(w.routes, mounted.value), "", "");
    AnswerRead(repo, file, tree, moduleName, mounted, w.routes);
  }

  predicate PathThenVerb(a: Route, b: Route) {
    if a.path != b.path then StrLeq(a.path, b.path) else StrLeq(a.verb, b.verb)
  }

  /** Every route is asked for, or those of one router. */
  predicate Asked(r: Route, mounted: Option<string>) {
    mounted.None? || r.router == mounted.value
  }

  lemma {:induction false} OfRouterIs(routes: seq<Route>, name: string, r: Route)
    ensures multiset(OfRouter(routes, name))[r] == if r.router == name then multiset(routes)[r] else 0
  {
    if routes != [] {
      OfRouterIs(routes[1..], name, r);
      assert routes == [routes[0]] + routes[1..];
    }
  }

  lemma AnswerRead(repo: Repo, file: File, tree: seq<Stmt>, moduleName: string, mounted: Option<string>,
      all: seq<Route>)
    requires RoutesIn(repo, file, tree, moduleName, mounted).Ok?
    requires var answer := RoutesIn(repo, file, tree, moduleName, mounted).value;
      Ordered(answer) && multiset(answer) == multiset(if mounted.None? then all else OfRouter(all, mounted.value))
    ensures var answer := RoutesIn(repo, file, tree, moduleName, mounted).value;
      && (forall i, j | 0 <= i < j < |answer| :: PathThenVerb(answer[i], answer[j]))
      && (forall r :: multiset(answer)[r] == if Asked(r, mounted) then multiset(all)[r] else 0)
  {
    var answer := RoutesIn(repo, file, tree, moduleName, mounted).value;
    hide RoutesIn, StrLeq;
    forall i, j | 0 <= i < j < |answer| ensures PathThenVerb(answer[i], answer[j]) {
      assert RouteLeq(answer[i], answer[j]);
    }
    if mounted.Some? {
      forall r ensures multiset(answer)[r] == if r.router == mounted.value then multiset(all)[r] else 0 {
        OfRouterIs(all, mounted.value, r);
      }
    }
  }

  lemma AnswerSorted(repo: Repo, file: File, tree: seq<Stmt>, moduleName: string, mounted: Option<string>)
    requires RoutesIn(repo, file, tree, moduleName, mounted).Ok?
    ensures Census(repo, file, tree, moduleName).Ok?
    ensures var w := Census(repo, file, tree, moduleName).value;
      && RoutesIn(repo, file, tree, moduleName, mounted).value
         == Sorted(if mounted.None? then w.routes else OfRouter(w.routes, mounted.value))
      && (mounted.Some? ==> mounted.value in w.names)
  {
    hide Census, Sorted, OfRouter;
  }

  lemma RoutesFound(repo: Repo, file: File, tree: seq<Stmt>, moduleName: string)
    requires Census(repo, file, tree, moduleName).Ok?
    ensures var w := Census(repo, file, tree, moduleName).value;
      w.routes == RoutesOfAll(repo, file, UsesOfBody(repo, file, tree, [], moduleName)) && w.names == BoundIn(tree)
    ensures Tabled(repo, file, UsesOfBody(repo, file, tree, [], moduleName))
  {
    TreeWalked(repo, file, tree, moduleName);
    AreTabled(repo, file, UsesOfBody(repo, file, tree, [], moduleName));
    hide Census, UsesOfBody, BoundIn, RoutesOfAll, AllCounted, Nodes, AtSites, On, NothingMissed;
    assert forall all: seq<Route> :: [] + all == all;
  }

  /**
   * The silent misses, exactly: of the attributes in the router surface of a module the census accepts, whatever
   * they are read off, one goes uncounted if and only if it is not read off a plain name that some walked
   * `name = APIRouter(...)` binds; then no route comes from it.
   */
  lemma SilentlyMissed(repo: Repo, file: File, tree: seq<Stmt>, moduleName: string, spot: Spot)
    requires NodesDistinct(tree) && Census(repo, file, tree, moduleName).Ok? && spot in SitesOfBody(tree)
    ensures var w := Census(repo, file, tree, moduleName).value;
      && (spot.node !in w.consumed <==> !OnName(spot, BoundIn(tree)))
      && (!OnName(spot, BoundIn(tree)) ==> forall r | r in w.routes :: r.site != spot.node)
  {
    var w, uses := Census(repo, file, tree, moduleName).value, UsesOfBody(repo, file, tree, [], moduleName);
    TreeWalked(repo, file, tree, moduleName);
    CensusComplete(repo, file, tree, moduleName);
    hide Census, UsesOfBody, BoundIn;
    if spot.node in w.consumed {
      SiteIsUsed(tree, w, uses, spot);
    }
    forall r | r in w.routes && r.site == spot.node ensures spot.node in Nodes(uses) {
      RouteHasUse(repo, file, uses, r);
    }
  }

  lemma EachCounted(repo: Repo, file: File, tree: seq<Stmt>, w: Walk, uses: seq<Use>, u: Use)
    requires AtSites(uses, SitesOfBody(tree)) && AllCounted(repo, file, uses)
      && w.routes == RoutesOfAll(repo, file, uses)
    requires forall i, j :: 0 <= i < j < |uses| ==> uses[i].site.node != uses[j].site.node
    requires u in uses
    ensures CountedOnce(repo, file, w, u) && SpotAt(u.site) in SitesOfBody(tree)
  {
    var k :| 0 <= k < |uses| && uses[k] == u;
    InTree(tree, uses, k);
    OneAt(repo, file, uses, k);
    assert Counted(repo, file, u);
    AddedIsCounted(repo, file, w, u);
  }
}
