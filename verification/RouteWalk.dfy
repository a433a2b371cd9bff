// proxyshop_support/route_census.py: the walk that turns one route module into routes, and the net
// behind it that refuses a file in which any router-surface attribute was not counted.
module RouteWalk {
  import opened Letters
  import opened Prelude
  import opened RouteConstants

  /**
   * Statements by what the walk does with them. `Block` is every statement that carries nested statement lists
   * other than a definition: `blocks` are the ones the walk enters, `unwalked` the ones it does not (the cases of
   * a `match`); a list the statement does not spell out (no `else`, no `finally`) is there, and empty. `Plain` is
   * every simple statement that is not an assignment, an expression or a `Leave`: the names it binds (an import, an
   * augmented assignment) and the ones it deletes.
   */
  datatype Stmt =
    | Assign(targets: seq<Expr>, value: Expr)
    | AnnAssign(target: Expr, annotation: Expr, given: Option<Expr>)
    | FunctionDef(name: string, decorators: seq<Expr>, header: seq<Expr>, body: seq<Stmt>)
    | ClassDef(name: string, header: seq<Expr>, body: seq<Stmt>)
    | ExprStmt(value: Expr)
    | Plain(header: seq<Expr>, binds: seq<string>, clears: seq<string>)
    | Leave(jump: Jump, header: seq<Expr>)
    | Block(flow: Flow, header: seq<Expr>, blocks: seq<Suite>, unwalked: seq<Suite>)

  /** `break`, `continue`, and what leaves the body for good: `return` and `raise`. */
  datatype Jump = Break | Continue | Away

  datatype Flow = If | Loop | With | Try | Match

  datatype Role = Body | Orelse | Handling | Finally

  /**
   * A statement list, the names bound on entering it (loop targets, `as`, captures) and those unbound on leaving
   * it (an exception's name).
   */
  datatype Suite = Suite(role: Role, takes: seq<string>, drops: seq<string>, body: seq<Stmt>)

  datatype Handler = Defined(qualname: string) | Passed(scope: string, what: Option<Expr>) | InScope(scope: string)

  datatype Kind = Http | WebSocket | Mounted

  /** `site` is the identity of the attribute node the route was read off. */
  datatype Route = Route(site: nat, verb: string, path: string, handler: Handler, kind: Kind, aliases: set<string>,
      router: string)

  datatype Refusal = Unresolved(why: Unresolvable) | NoMethods | NotALiteralVerb | NoPath | Uncounted | NoRouter

  const HTTP_METHODS: set<string> := {"get", "post", "put", "delete", "patch", "head", "options", "trace"}

  const ROUTER_SURFACE_CALLS: set<string> := HTTP_METHODS + {
    "api_route", "add_api_route", "add_api_websocket_route", "add_route", "add_websocket_route", "host",
    "include_router", "mount", "route", "websocket", "websocket_route"
  }

  /** What the walk accumulates. */
  datatype Walk = Walk(routes: seq<Route>, names: set<string>, consumed: set<nat>)

  type Routers = map<string, string>

  // ---------------------------------------------------------------------------------
  // Reading one call

  function KeywordValue(keywords: seq<Keyword>, name: string): Option<Expr> {
    if keywords == [] then None
    else if keywords[0].arg == Some(name) then Some(keywords[0].value)
    else KeywordValue(keywords[1..], name)
  }

  predicate IsApiRouter(e: Expr) {
    e.Call? && ((e.func.Name? && e.func.id == "APIRouter") || (e.func.Attr? && e.func.attr == "APIRouter"))
  }

  function Verbs(elts: seq<Expr>): Result<seq<string>, Refusal> {
    if elts == [] then Ok([])
    else if !elts[0].Str? then Err(NotALiteralVerb)
    else
      match Verbs(elts[1..])
      case Err(r) => Err(r)
      case Ok(rest) => Ok([Upper(elts[0].text)] + rest)
  }

  function MethodsOf(call: Expr): Result<seq<string>, Refusal>
    requires call.Call?
  {
    match KeywordValue(call.keywords, "methods")
    case None => Err(NoMethods)
    case Some(e) => if e.Listing? then Verbs(e.elts) else Err(NotALiteralVerb)
  }

  function PathExpr(call: Expr): Option<Expr>
    requires call.Call?
  {
    match KeywordValue(call.keywords, "path")
    case Some(e) => Some(e)
    case None => if |call.args| > 0 then Some(call.args[0]) else None
  }

  function Second(call: Expr, keyword: string): Option<Expr>
    requires call.Call?
  {
    if |call.args| > 1 then Some(call.args[1]) else KeywordValue(call.keywords, keyword)
  }

  /** The identifiers an evaluation goes through at the route's own expression. */
  function Aliases(e: Expr): set<string> {
    match e
    case Name(id) => {id}
    case Attr(_, _, attr) => {attr}
    case FString(parts) => AliasesOfParts(parts)
    case Add(left, right) => Aliases(left) + Aliases(right)
    case _ => {}
  }

  function AliasesOfParts(parts: seq<Part>): set<string> {
    if parts == [] then {} else AliasesOfPart(parts[0]) + AliasesOfParts(parts[1..])
  }

  function AliasesOfPart(p: Part): set<string> {
    match p
    case Text(_) => {}
    case Hole(value, _) => Aliases(value)
  }

  /** Prefix and path simply run together; the root has to be written out. */
  function Join(prefix: string, path: string): string {
    if prefix + path == "" then "/" else prefix + path
  }

  // ---------------------------------------------------------------------------------
  // A use of a router: a surface call the walk handles, with what it sees there

  /** An attribute node `base.attr` on a plain name, in the router surface. */
  datatype Site = Site(node: nat, base: string, attr: string)

  datatype Use = Use(site: Site, call: Expr, decorates: bool, scope: string, prefix: string)

  /** Any attribute node in the router surface, with the plain name it is read off, if it is read off one. */
  datatype Spot = Spot(node: nat, base: Option<string>, attr: string)

  function SpotAt(site: Site): Spot {
    Spot(site.node, Some(site.base), site.attr)
  }

  predicate OnName(spot: Spot, names: set<string>) {
    spot.base.Some? && spot.base.value in names
  }

  function SpotOf(e: Expr): Option<Spot> {
    if e.Attr? && e.attr in ROUTER_SURFACE_CALLS
    then Some(Spot(e.node, if e.base.Name? then Some(e.base.id) else None, e.attr)) else None
  }

  function SiteOf(e: Expr): Option<Site> {
    if e.Attr? && e.base.Name? && e.attr in ROUTER_SURFACE_CALLS then Some(Site(e.node, e.base.id, e.attr)) else None
  }

  /** The verbs a use serves: the table of decorators and calls the census understands. */
  function VerbsOf(u: Use): Result<seq<string>, Refusal>
    requires u.call.Call?
  {
    if u.decorates then
      if u.site.attr in HTTP_METHODS then Ok([Upper(u.site.attr)])
      else if u.site.attr in {"api_route", "route"} then MethodsOf(u.call)
      else if u.site.attr in {"websocket", "websocket_route"} then Ok(["WEBSOCKET"])
      else Err(Uncounted)
    else
      if u.site.attr == "mount" then Ok(["MOUNT"])
      else if u.site.attr in {"add_api_route", "add_route"} then MethodsOf(u.call)
      else if u.site.attr in {"add_websocket_route", "add_api_websocket_route"} then Ok(["WEBSOCKET"])
      else Err(Uncounted)
  }

  function KindOf(u: Use): Kind {
    if u.site.attr in {"websocket", "websocket_route", "add_websocket_route", "add_api_websocket_route"} then WebSocket
    else if u.site.attr == "mount" then Mounted
    else Http
  }

  function HandlerOf(u: Use): Handler
    requires u.call.Call?
  {
    if u.decorates then Defined(u.scope)
    else if KindOf(u) == WebSocket then InScope(u.scope)
    else Passed(u.scope, Second(u.call, if u.site.attr == "mount" then "app" else "endpoint"))
  }

  function PathOf(repo: Repo, file: File, u: Use): Result<string, Refusal>
    requires u.call.Call?
  {
    match PathExpr(u.call)
    case None => Err(NoPath)
    case Some(e) =>
      match Literal(repo, e, file, {})
      case Err(why) => Err(Unresolved(why))
      case Ok(path) => Ok(path)
  }

  function Record(u: Use, verbs: seq<string>, path: string): (r: seq<Route>)
    requires u.call.Call?
    ensures |r| == |verbs|
    ensures forall i | 0 <= i < |verbs| ::
      r[i].site == u.site.node && r[i].verb == verbs[i] && r[i].path == path && r[i].router == u.site.base
  {
    seq(|verbs|, i requires 0 <= i < |verbs| =>
      Route(u.site.node, verbs[i], path, HandlerOf(u), KindOf(u),
            if PathExpr(u.call).Some? then Aliases(PathExpr(u.call).value) else {}, u.site.base))
  }

  /** The routes one use adds, or why it is refused; an uncountable surface is refused before its path is read. */
  function RoutesOf(repo: Repo, file: File, u: Use): Result<seq<Route>, Refusal>
    requires u.call.Call?
  {
    if VerbsOf(u) == Err(Uncounted) then Err(Uncounted)
    else
      match PathOf(repo, file, u)
      case Err(r) => Err(r)
      case Ok(path) =>
        match VerbsOf(u)
        case Err(r) => Err(r)
        case Ok(verbs) => Ok(Record(u, verbs, Join(u.prefix, path)))
  }

  // ---------------------------------------------------------------------------------
  // The walk, as a function of what it has accumulated and of the routers in scope

  function HandleUse(repo: Repo, file: File, w: Walk, u: Use): Result<Walk, Refusal>
    requires u.call.Call?
  {
    match RoutesOf(repo, file, u)
    case Err(r) => Err(r)
    case Ok(routes) => Ok(w.(routes := w.routes + routes, consumed := w.consumed + {u.site.node}))
  }

  function HandleDecorator(repo: Repo, file: File, w: Walk, d: Expr, routers: Routers,
      qualname: string): Result<Walk, Refusal> {
    if d.Attr? then
      if SiteOf(d).Some? && SiteOf(d).value.base in routers then Err(Uncounted) else Ok(w)
    else if d.Call? && SiteOf(d.func).Some? && SiteOf(d.func).value.base in routers then
      HandleUse(repo, file, w, Use(SiteOf(d.func).value, d, true, qualname, routers[SiteOf(d.func).value.base]))
    else Ok(w)
  }

  function HandleDecorators(repo: Repo, file: File, w: Walk, ds: seq<Expr>, routers: Routers,
      qualname: string): Result<Walk, Refusal>
    decreases |ds|
  {
    if ds == [] then Ok(w)
    else
      match HandleDecorator(repo, file, w, ds[0], routers, qualname)
      case Err(r) => Err(r)
      case Ok(w') => HandleDecorators(repo, file, w', ds[1..], routers, qualname)
  }

  function HandleCall(repo: Repo, file: File, w: Walk, call: Expr, routers: Routers,
      scope: string): Result<Walk, Refusal>
    requires call.Call?
  {
    if SiteOf(call.func).Some? && SiteOf(call.func).value.base in routers then
      HandleUse(repo, file, w, Use(SiteOf(call.func).value, call, false, scope, routers[SiteOf(call.func).value.base]))
    else Ok(w)
  }

  datatype Scope = Scope(walk: Walk, routers: Routers)

  function BindTargets(s: Scope, targets: seq<Expr>, prefix: string): Scope
    decreases |targets|
  {
    if targets == [] then s
    else if targets[0].Name? then
      BindTargets(Scope(s.walk.(names := s.walk.names + {targets[0].id}), s.routers[targets[0].id := prefix]),
        targets[1..], prefix)
    else BindTargets(s, targets[1..], prefix)
  }

  /** `value` and `targets` of an assignment of any kind. */
  function Assigned(st: Stmt): Option<(Expr, seq<Expr>)> {
    match st
    case Assign(targets, value) => Some((value, targets))
    case AnnAssign(target, _, Some(value)) => Some((value, [target]))
    case _ => None
  }

  function PrefixOf(repo: Repo, file: File, router: Expr): Result<string, Refusal>
    requires router.Call?
  {
    match KeywordValue(router.keywords, "prefix")
    case None => Ok("")
    case Some(e) =>
      match Literal(repo, e, file, {})
      case Err(why) => Err(Unresolved(why))
      case Ok(prefix) => Ok(prefix)
  }

  function BindOne(repo: Repo, file: File, s: Scope, st: Stmt): Result<Scope, Refusal> {
    match Assigned(st)
    case None => Ok(s)
    case Some((value, targets)) =>
      if !IsApiRouter(value) then Ok(s)
      else
        match PrefixOf(repo, file, value)
        case Err(r) => Err(r)
        case Ok(prefix) => Ok(BindTargets(s, targets, prefix))
  }

  function BindRouters(repo: Repo, file: File, s: Scope, body: seq<Stmt>): Result<Scope, Refusal>
    decreases |body|
  {
    if body == [] then Ok(s)
    else
      match BindOne(repo, file, s, body[0])
      case Err(r) => Err(r)
      case Ok(s') => BindRouters(repo, file, s', body[1..])
  }

  /** `_walk_body`: routers bound anywhere in the body are visible in all of it. */
  function WalkBody(repo: Repo, file: File, s: Scope, body: seq<Stmt>, scope: string): Result<Scope, Refusal>
    decreases body, 2
  {
    match BindRouters(repo, file, s, body)
    case Err(r) => Err(r)
    case Ok(s') => WalkStmts(repo, file, s', body, scope)
  }

  function WalkStmts(repo: Repo, file: File, s: Scope, body: seq<Stmt>, scope: string): Result<Scope, Refusal>
    decreases body, 1
  {
    if body == [] then Ok(s)
    else
      match WalkStmt(repo, file, s, body[0], scope)
      case Err(r) => Err(r)
      case Ok(s') => WalkStmts(repo, file, s', body[1..], scope)
  }

  /** A function or class body gets a COPY of the routers; any other block shares them. */
  function WalkStmt(repo: Repo, file: File, s: Scope, st: Stmt, scope: string): Result<Scope, Refusal>
    decreases st, 0
  {
    match st
    case FunctionDef(name, decorators, _, body) =>
      var qualname := scope + "." + name;
      (match HandleDecorators(repo, file, s.walk, decorators, s.routers, qualname)
       case Err(r) => Err(r)
       case Ok(w) =>
         match WalkBody(repo, file, Scope(w, s.routers), body, qualname)
         case Err(r) => Err(r)
         case Ok(s') => Ok(Scope(s'.walk, s.routers)))
    case ClassDef(name, _, body) =>
      (match WalkBody(repo, file, s, body, scope + "." + name)
       case Err(r) => Err(r)
       case Ok(s') => Ok(Scope(s'.walk, s.routers)))
    case ExprStmt(value) =>
      if !value.Call? then Ok(s)
      else
        (match HandleCall(repo, file, s.walk, value, s.routers, scope)
         case Err(r) => Err(r)
         case Ok(w) => Ok(Scope(w, s.routers)))
    case Block(_, _, blocks, _) => WalkBlocks(repo, file, s, blocks, scope)
    case _ => Ok(s)
  }

  function WalkBlocks(repo: Repo, file: File, s: Scope, blocks: seq<Suite>, scope: string): Result<Scope, Refusal>
    decreases blocks, 0
  {
    if blocks == [] then Ok(s)
    else
      match WalkSuite(repo, file, s, blocks[0], scope)
      case Err(r) => Err(r)
      case Ok(s') => WalkBlocks(repo, file, s', blocks[1..], scope)
  }

  function WalkSuite(repo: Repo, file: File, s: Scope, suite: Suite, scope: string): Result<Scope, Refusal>
    decreases suite, 3
  {
    WalkBody(repo, file, s, suite.body, scope)
  }

  // ---------------------------------------------------------------------------------
  // The net: every attribute node of the file, wherever `ast.walk` finds it

  function SitesIn(e: Expr): seq<Spot>
    decreases e
  {
    (if SpotOf(e).Some? then [SpotOf(e).value] else []) +
    match e
    case Attr(_, base, _) => SitesIn(base)
    case FString(parts) => SitesInParts(parts)
    case Add(left, right) => SitesIn(left) + SitesIn(right)
    case Call(func, args, keywords) => SitesIn(func) + SitesInAll(args) + SitesInKeywords(keywords)
    case Listing(elts) => SitesInAll(elts)
    case Named(_, value) => SitesIn(value)
    case Other(children) => SitesInAll(children)
    case _ => []
  }

  function SitesInAll(es: seq<Expr>): seq<Spot>
    decreases es
  {
    if es == [] then [] else SitesIn(es[0]) + SitesInAll(es[1..])
  }

  function SitesInParts(parts: seq<Part>): seq<Spot>
    decreases parts
  {
    if parts == [] then [] else SitesInPart(parts[0]) + SitesInParts(parts[1..])
  }

  function SitesInPart(p: Part): seq<Spot>
    decreases p
  {
    match p
    case Text(_) => []
    case Hole(value, _) => SitesIn(value)
  }

  function SitesInKeywords(ks: seq<Keyword>): seq<Spot>
    decreases ks
  {
    if ks == [] then [] else SitesInKeyword(ks[0]) + SitesInKeywords(ks[1..])
  }

  function SitesInKeyword(k: Keyword): seq<Spot>
    decreases k
  {
    SitesIn(k.value)
  }

  function SitesOfStmt(st: Stmt): seq<Spot>
    decreases st
  {
    match st
    case Assign(targets, value) => SitesInAll(targets) + SitesIn(value)
    case AnnAssign(target, annotation, given) =>
      SitesIn(target) + SitesIn(annotation) + (if given.Some? then SitesIn(given.value) else [])
    case FunctionDef(_, decorators, header, body) => SitesInAll(decorators) + SitesInAll(header) + SitesOfBody(body)
    case ClassDef(_, header, body) => SitesInAll(header) + SitesOfBody(body)
    case ExprStmt(value) => SitesIn(value)
    case Plain(header, _, _) => SitesInAll(header)
    case Leave(_, header) => SitesInAll(header)
    case Block(_, header, blocks, unwalked) => SitesInAll(header) + SitesOfSuites(blocks) + SitesOfSuites(unwalked)
  }

  function SitesOfBody(body: seq<Stmt>): seq<Spot>
    decreases body
  {
    if body == [] then [] else SitesOfStmt(body[0]) + SitesOfBody(body[1..])
  }

  function SitesOfSuites(suites: seq<Suite>): seq<Spot>
    decreases suites
  {
    if suites == [] then [] else SitesOfSuite(suites[0]) + SitesOfSuites(suites[1..])
  }

  function SitesOfSuite(suite: Suite): seq<Spot>
    decreases suite
  {
    SitesOfBody(suite.body)
  }

  predicate NothingMissed(w: Walk, sites: seq<Spot>) {
    forall site | site in sites :: OnName(site, w.names) ==> site.node in w.consumed
  }

  /** The walk of a whole file, and the net behind it; `routes_in` before the mounted-router filter. */
  function Census(repo: Repo, file: File, tree: seq<Stmt>, moduleName: string): Result<Walk, Refusal> {
    match WalkBody(repo, file, Scope(Walk([], {}, {}), map[]), tree, moduleName)
    case Err(r) => Err(r)
    case Ok(s) => if NothingMissed(s.walk, SitesOfBody(tree)) then Ok(s.walk) else Err(Uncounted)
  }

  function OfRouter(routes: seq<Route>, name: string): seq<Route> {
    if routes == [] then []
    else (if routes[0].router == name then [routes[0]] else []) + OfRouter(routes[1..], name)
  }

  /** The key `(route.path, route.method)`, compared as Python compares tuples of strings. */
  predicate RouteLeq(a: Route, b: Route) {
    if a.path == b.path then StrLeq(a.verb, b.verb) else StrLeq(a.path, b.path)
  }

  function Insert(r: Route, routes: seq<Route>): seq<Route> {
    if routes == [] || RouteLeq(r, routes[0]) then [r] + routes else [routes[0]] + Insert(r, routes[1..])
  }

  /** `sorted(routes, key=...)` */
  function Sorted(routes: seq<Route>): seq<Route> {
    if routes == [] then [] else Insert(routes[0], Sorted(routes[1..]))
  }

  /** `routes_in` */
  function RoutesIn(repo: Repo, file: File, tree: seq<Stmt>, moduleName: string,
      mounted: Option<string>): Result<seq<Route>, Refusal> {
    match Census(repo, file, tree, moduleName)
    case Err(r) => Err(r)
    case Ok(w) =>
      match mounted
      case None => Ok(Sorted(w.routes))
      case Some(name) => if name in w.names then Ok(Sorted(OfRouter(w.routes, name))) else Err(NoRouter)
  }

  // ---------------------------------------------------------------------------------
  // The order of the answer

  ghost predicate Ordered(routes: seq<Route>) {
    forall i, j :: 0 <= i < j < |routes| ==> RouteLeq(routes[i], routes[j])
  }

  /** The routes of one key, in the order they come. */
  ghost function Keyed(routes: seq<Route>, path: string, verb: string): seq<Route> {
    if routes == [] then []
    else (if routes[0].path == path && routes[0].verb == verb then [routes[0]] else []) + Keyed(routes[1..], path, verb)
  }

  lemma LeqTotal(a: Route, b: Route)
    ensures RouteLeq(a, b) || RouteLeq(b, a)
  {
    StrLeqTotal(a.path, b.path);
    StrLeqTotal(a.verb, b.verb);
  }

  lemma LeqTransitive(a: Route, b: Route, c: Route)
    requires RouteLeq(a, b) && RouteLeq(b, c)
    ensures RouteLeq(a, c)
  {
    hide StrLeq;
    if a.path == b.path == c.path {
      StrLeqTransitive(a.verb, b.verb, c.verb);
    } else if a.path != b.path && b.path != c.path {
      StrLeqTransitive(a.path, b.path, c.path);
      if a.path == c.path {
        StrLeqAntisymmetric(a.path, b.path);
      }
    }
  }

  lemma {:induction false} InsertIs(r: Route, routes: seq<Route>)
    requires Ordered(routes)
    ensures multiset(Insert(r, routes)) == multiset{r} + multiset(routes) && Ordered(Insert(r, routes))
  {
    hide RouteLeq;
    if routes == [] {
    } else if RouteLeq(r, routes[0]) {
      forall j | 0 <= j < |routes| ensures RouteLeq(r, routes[j]) {
        if j > 0 {
          LeqTransitive(r, routes[0], routes[j]);
        }
      }
    } else {
      LeqTotal(r, routes[0]);
      InsertIs(r, routes[1..]);
      assert routes == [routes[0]] + routes[1..];
      InsertedAbove(r, routes);
    }
  }

  lemma InsertedAbove(r: Route, routes: seq<Route>)
    requires routes != [] && Ordered(routes) && RouteLeq(routes[0], r)
    requires Ordered(Insert(r, routes[1..])) && multiset(Insert(r, routes[1..])) == multiset{r} + multiset(routes[1..])
    ensures Ordered([routes[0]] + Insert(r, routes[1..]))
  {
    hide RouteLeq, Insert;
    var rest := Insert(r, routes[1..]);
    forall j | 0 <= j < |rest| ensures RouteLeq(routes[0], rest[j]) {
      assert rest[j] in multiset(rest);
      assert rest[j] == r || rest[j] in routes[1..];
    }
  }

  lemma {:induction false} InsertKeyed(r: Route, routes: seq<Route>, path: string, verb: string)
    ensures Keyed(Insert(r, routes), path, verb) == Keyed([r] + routes, path, verb)
    decreases |routes|
  {
    if routes != [] && !RouteLeq(r, routes[0]) {
      assert r.path == path && r.verb == verb ==> routes[0].path != path || routes[0].verb != verb by {
        LeqTotal(r, routes[0]);
      }
      hide RouteLeq;
      InsertKeyed(r, routes[1..], path, verb);
      assert ([r] + routes)[1..] == routes && ([r] + routes[1..])[1..] == routes[1..];
      assert ([routes[0]] + Insert(r, routes[1..]))[1..] == Insert(r, routes[1..]);
    }
  }

  /** The answer is the routes found, in order of path and verb, those of one key in the order they were found. */
  lemma {:induction false} SortedIs(routes: seq<Route>, path: string, verb: string)
    ensures multiset(Sorted(routes)) == multiset(routes) && Ordered(Sorted(routes))
    ensures Keyed(Sorted(routes), path, verb) == Keyed(routes, path, verb)
  {
    if routes != [] {
      SortedIs(routes[1..], path, verb);
      hide Ordered, RouteLeq, Insert;
      InsertIs(routes[0], Sorted(routes[1..]));
      InsertKeyed(routes[0], Sorted(routes[1..]), path, verb);
      assert routes == [routes[0]] + routes[1..];
      assert ([routes[0]] + Sorted(routes[1..]))[1..] == Sorted(routes[1..]);
    }
  }

  // ---------------------------------------------------------------------------------
  // The walk as the source runs it: one object, filled in place

  class Walker {
    var routes: seq<Route>
    var names: set<string>
    var consumed: set<nat>

    ghost function State(): Walk
      reads this
    {
      Walk(routes, names, consumed)
    }

    ghost predicate Ran(outcome: Result<Routers, Refusal>, spec: Result<Scope, Refusal>)
      reads this
    {
      match outcome
      case Ok(routers) => spec == Ok(Scope(State(), routers))
      case Err(r) => spec == Err(r)
    }

    ghost predicate Did(outcome: Option<Refusal>, spec: Result<Walk, Refusal>)
      reads this
    {
      match outcome
      case None => spec == Ok(State())
      case Some(r) => spec == Err(r)
    }

    constructor ()
      ensures State() == Walk([], {}, {})
    {
      routes, names, consumed := [], {}, {};
    }

    /** `_record`, after the path and the verbs are known to be readable. */
    method Count(repo: Repo, file: File, u: Use) returns (refused: Option<Refusal>)
      requires u.call.Call?
      modifies this
      ensures Did(refused, HandleUse(repo, file, old(State()), u))
    {
      consumed := consumed + {u.site.node};
      var verbs := VerbsOf(u);
      if verbs == Err(Uncounted) {
        return Some(Uncounted);
      }
      var path := PathOf(repo, file, u);
      if path.Err? {
        return Some(path.error);
      }
      if verbs.Err? {
        return Some(verbs.error);
      }
      var added := Record(u, verbs.value, Join(u.prefix, path.value));
      for i := 0 to |added|
        invariant routes == old(routes) + added[..i] && names == old(names) && consumed == old(consumed) + {u.site.node}
      {
        routes := routes + [added[i]];
      }
      assert added[..|added|] == added;
      refused := None;
    }

    method Decorators(repo: Repo, file: File, ds: seq<Expr>, routers: Routers, qualname: string)
      returns (refused: Option<Refusal>)
      modifies this
      ensures Did(refused, HandleDecorators(repo, file, old(State()), ds, routers, qualname))
    {
      for i := 0 to |ds|
        invariant HandleDecorators(repo, file, State(), ds[i..], routers, qualname)
               == HandleDecorators(repo, file, old(State()), ds, routers, qualname)
      {
        var d := ds[i];
        assert ds[i..][0] == d && ds[i..][1..] == ds[i + 1..];
        if d.Attr? {
          if SiteOf(d).Some? && SiteOf(d).value.base in routers {
            return Some(Uncounted);
          }
        } else if d.Call? && SiteOf(d.func).Some? && SiteOf(d.func).value.base in routers {
          var site := SiteOf(d.func).value;
          refused := Count(repo, file, Use(site, d, true, qualname, routers[site.base]));
          if refused.Some? {
            return;
          }
        }
      }
      refused := None;
    }

    method Targets(targets: seq<Expr>, prefix: string, before: Routers) returns (routers: Routers)
      modifies this
      ensures Scope(State(), routers) == BindTargets(Scope(old(State()), before), targets, prefix)
    {
      routers := before;
      for i := 0 to |targets|
        invariant BindTargets(Scope(State(), routers), targets[i..], prefix)
          == BindTargets(Scope(old(State()), before), targets, prefix)
      {
        if targets[i].Name? {
          routers := routers[targets[i].id := prefix];
          names := names + {targets[i].id};
        }
      }
    }

    method Bind(repo: Repo, file: File, body: seq<Stmt>, before: Routers) returns (outcome: Result<Routers, Refusal>)
      modifies this
      ensures Ran(outcome, BindRouters(repo, file, Scope(old(State()), before), body))
    {
      var routers := before;
      for i := 0 to |body|
        invariant BindRouters(repo, file, Scope(State(), routers), body[i..])
               == BindRouters(repo, file, Scope(old(State()), before), body)
      {
        var given := Assigned(body[i]);
        assert body[i..][0] == body[i] && body[i..][1..] == body[i + 1..];
        if given.Some? && IsApiRouter(given.value.0) {
          var prefix := PrefixOf(repo, file, given.value.0);
          if prefix.Err? {
            return Err(prefix.error);
          }
          routers := Targets(given.value.1, prefix.value, routers);
        }
      }
      outcome := Ok(routers);
    }

    /** `_walk_body`; the dictionary of routers it mutates is what it returns. */
    method Body(repo: Repo, file: File, body: seq<Stmt>, before: Routers, scope: string)
      returns (outcome: Result<Routers, Refusal>)
      modifies this
      ensures Ran(outcome, WalkBody(repo, file, Scope(old(State()), before), body, scope))
      decreases body, 2
    {
      outcome := Bind(repo, file, body, before);
      if outcome.Ok? {
        outcome := Statements(repo, file, body, outcome.value, scope);
      }
    }

    method Statements(repo: Repo, file: File, body: seq<Stmt>, before: Routers, scope: string)
      returns (outcome: Result<Routers, Refusal>)
      modifies this
      ensures Ran(outcome, WalkStmts(repo, file, Scope(old(State()), before), body, scope))
      decreases body, 1
    {
      outcome := Ok(before);
      for i := 0 to |body|
        invariant outcome.Ok?
        invariant WalkStmts(repo, file, Scope(State(), outcome.value), body[i..], scope)
               == WalkStmts(repo, file, Scope(old(State()), before), body, scope)
      {
        assert body[i..][0] == body[i] && body[i..][1..] == body[i + 1..];
        outcome := Statement(repo, file, body[i], outcome.value, scope);
        if outcome.Err? {
          return;
        }
      }
    }

    method Statement(repo: Repo, file: File, st: Stmt, routers: Routers, scope: string)
      returns (outcome: Result<Routers, Refusal>)
      modifies this
      ensures Ran(outcome, WalkStmt(repo, file, Scope(old(State()), routers), st, scope))
      decreases st, 0
    {
      match st
      case FunctionDef(name, decorators, _, body) =>
        var qualname := scope + "." + name;
        var refused := Decorators(repo, file, decorators, routers, qualname);
        if refused.Some? {
          return Err(refused.value);
        }
        var inner := Body(repo, file, body, routers, qualname);
        outcome := if inner.Ok? then Ok(routers) else inner;
      case ClassDef(name, _, body) =>
        var inner := Body(repo, file, body, routers, scope + "." + name);
        outcome := if inner.Ok? then Ok(routers) else inner;
      case ExprStmt(value) =>
        outcome := Ok(routers);
        if value.Call? && SiteOf(value.func).Some? && SiteOf(value.func).value.base in routers {
          var site := SiteOf(value.func).value;
          var refused := Count(repo, file, Use(site, value, false, scope, routers[site.base]));
          if refused.Some? {
            outcome := Err(refused.value);
          }
        }
      case Block(_, _, blocks, _) =>
        outcome := Blocks(repo, file, blocks, routers, scope);
      case _ =>
        outcome := Ok(routers);
    }

    method Blocks(repo: Repo, file: File, blocks: seq<Suite>, before: Routers, scope: string)
      returns (outcome: Result<Routers, Refusal>)
      modifies this
      ensures Ran(outcome, WalkBlocks(repo, file, Scope(old(State()), before), blocks, scope))
      decreases blocks, 0
    {
      outcome := Ok(before);
      for i := 0 to |blocks|
        invariant outcome.Ok?
        invariant WalkBlocks(repo, file, Scope(State(), outcome.value), blocks[i..], scope)
               == WalkBlocks(repo, file, Scope(old(State()), before), blocks, scope)
      {
        assert blocks[i..][0] == blocks[i] && blocks[i..][1..] == blocks[i + 1..];
        outcome := OneSuite(repo, file, blocks[i], outcome.value, scope);
        if outcome.Err? {
          return;
        }
      }
    }

    method OneSuite(repo: Repo, file: File, suite: Suite, before: Routers, scope: string)
      returns (outcome: Result<Routers, Refusal>)
      modifies this
      ensures Ran(outcome, WalkSuite(repo, file, Scope(old(State()), before), suite, scope))
      decreases suite, 3
    {
      outcome := Body(repo, file, suite.body, before, scope);
    }
  }

  /** `routes_in` */
  method RoutesOfFile(repo: Repo, file: File, tree: seq<Stmt>, moduleName: string, mounted: Option<string>)
    returns (outcome: Result<seq<Route>, Refusal>)
    ensures outcome == RoutesIn(repo, file, tree, moduleName, mounted)
  {
    var walk := new Walker();
    var walked := walk.Body(repo, file, tree, map[], moduleName);
    if walked.Err? {
      return Err(walked.error);
    }
    var sites := SitesOfBody(tree);
    for i := 0 to |sites|
      invariant forall j | 0 <= j < i :: OnName(sites[j], walk.names) ==> sites[j].node in walk.consumed
    {
      if OnName(sites[i], walk.names) && sites[i].node !in walk.consumed {
        return Err(Uncounted);
      }
    }
    assert NothingMissed(walk.State(), sites);
    if mounted.None? {
      return Ok(Sorted(walk.routes));
    }
    if mounted.value !in walk.names {
      return Err(NoRouter);
    }
    outcome := Ok(Sorted(OfRouter(walk.routes, mounted.value)));
  }
}
