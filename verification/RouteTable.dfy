// proxyshop_support/route_census.py: what each surface attribute of a router adds, as a table written out name by
// name, and what a use must therefore become. The walk reads the table off the attribute and the call.
module RouteTable {
  import opened Letters
  import opened Prelude
  import opened RouteConstants
  import opened RouteWalk

  /** One verb of its own, the verbs of `methods=`, a socket, a mount, or nothing the census can count. */
  datatype Fate = OneVerb(verb: string) | Listed | Socket | MountPoint | Refused

  /** `@router.attr(...)` */
  function DecoratorFate(attr: string): Fate {
    match attr
    case "get" => OneVerb("GET")
    case "post" => OneVerb("POST")
    case "put" => OneVerb("PUT")
    case "delete" => OneVerb("DELETE")
    case "patch" => OneVerb("PATCH")
    case "head" => OneVerb("HEAD")
    case "options" => OneVerb("OPTIONS")
    case "trace" => OneVerb("TRACE")
    case "api_route" => Listed
    case "route" => Listed
    case "websocket" => Socket
    case "websocket_route" => Socket
    case _ => Refused
  }

  /** `router.attr(...)`, as a statement of its own. */
  function CallFate(attr: string): Fate {
    match attr
    case "mount" => MountPoint
    case "add_api_route" => Listed
    case "add_route" => Listed
    case "add_websocket_route" => Socket
    case "add_api_websocket_route" => Socket
    case _ => Refused
  }

  function Fated(u: Use): Fate {
    if u.decorates then DecoratorFate(u.site.attr) else CallFate(u.site.attr)
  }

  /** `e` is the value of the keyword `name`. */
  ghost predicate Keyed(call: Expr, name: string, e: Expr)
    requires call.Call?
  {
    exists k: nat :: k < |call.keywords| && FirstAt(call.keywords, name, k) && call.keywords[k].value == e
  }

  predicate FirstAt(keywords: seq<Keyword>, name: string, k: nat)
    requires k < |keywords|
  {
    keywords[k].arg == Some(name) && forall j | 0 <= j < k :: keywords[j].arg != Some(name)
  }

  predicate Unkeyed(call: Expr, name: string)
    requires call.Call?
  {
    forall k | 0 <= k < |call.keywords| :: call.keywords[k].arg != Some(name)
  }

  /** `methods=` is a display of string literals, and `verbs` are they in capitals, in order. */
  ghost predicate ListsVerbs(call: Expr, verbs: seq<string>)
    requires call.Call?
  {
    exists e :: Keyed(call, "methods", e) && e.Listing? && InCapitals(e.elts, verbs)
  }

  predicate InCapitals(elts: seq<Expr>, verbs: seq<string>) {
    && |elts| == |verbs|
    && forall i | 0 <= i < |elts| :: elts[i].Str? && verbs[i] == Upper(elts[i].text)
  }

  ghost predicate Serves(u: Use, verbs: seq<string>)
    requires u.call.Call?
  {
    match Fated(u)
    case OneVerb(verb) => verbs == [verb]
    case Listed => ListsVerbs(u.call, verbs)
    case Socket => verbs == ["WEBSOCKET"]
    case MountPoint => verbs == ["MOUNT"]
    case Refused => false
  }

  /** The path: the keyword `path`, else the first argument; and the string it denotes. */
  ghost predicate PathReads(repo: Repo, file: File, call: Expr, e: Expr, path: string)
    requires call.Call?
  {
    && (Keyed(call, "path", e) || (Unkeyed(call, "path") && call.args != [] && call.args[0] == e))
    && ExprDenotes(repo, e, file, path)
  }

  /** A router's prefix: what the keyword `prefix` denotes, and nothing without it. */
  ghost predicate PrefixReads(repo: Repo, file: File, router: Expr, prefix: string)
    requires router.Call?
  {
    || (Unkeyed(router, "prefix") && prefix == "")
    || exists e :: Keyed(router, "prefix", e) && ExprDenotes(repo, e, file, prefix)
  }

  /** What is mounted or added: the second argument, else the keyword, else nothing is known of it. */
  ghost predicate Hands(call: Expr, name: string, what: Option<Expr>)
    requires call.Call?
  {
    if |call.args| > 1 then what == Some(call.args[1])
    else if what.Some? then Keyed(call, name, what.value)
    else Unkeyed(call, name)
  }

  ghost predicate HandledBy(u: Use, handler: Handler)
    requires u.call.Call?
  {
    if u.decorates then handler == Defined(u.scope)
    else
      match Fated(u)
      case Socket => handler == InScope(u.scope)
      case MountPoint => handler.Passed? && handler.scope == u.scope && Hands(u.call, "app", handler.what)
      case _ => handler.Passed? && handler.scope == u.scope && Hands(u.call, "endpoint", handler.what)
  }

  function KindFated(u: Use): Kind {
    match Fated(u)
    case Socket => WebSocket
    case MountPoint => Mounted
    case _ => Http
  }

  /** The pieces an expression is spelled from, left to right; a hole the census will not read spells nothing. */
  function Leaves(e: Expr): seq<Expr> {
    match e
    case Add(left, right) => Leaves(left) + Leaves(right)
    case FString(parts) => LeavesOfParts(parts)
    case _ => [e]
  }

  function LeavesOfParts(parts: seq<Part>): seq<Expr> {
    if parts == [] then [] else LeavesOfPart(parts[0]) + LeavesOfParts(parts[1..])
  }

  function LeavesOfPart(p: Part): seq<Expr> {
    match p
    case Text(text) => [Str(text)]
    case Hole(value, plain) => Leaves(value) + if plain then [] else [OtherConstant]
  }

  /** The name `x`, or a dotted read of it. */
  predicate Names(e: Expr, x: string) {
    e == Name(x) || (e.Attr? && e.attr == x)
  }

  predicate NamedIn(leaves: seq<Expr>, x: string) {
    exists i :: 0 <= i < |leaves| && Names(leaves[i], x)
  }

  /** The route a use adds for one of its verbs; `e` is its path's expression. */
  ghost predicate RouteFor(u: Use, verb: string, e: Expr, path: string, r: Route)
    requires u.call.Call?
  {
    && r.site == u.site.node && r.router == u.site.base && r.verb == verb
    && r.path == (if u.prefix == "" && path == "" then "/" else u.prefix + path)
    && HandledBy(u, r.handler) && r.kind == KindFated(u)
    && forall x :: x in r.aliases <==> NamedIn(Leaves(e), x)
  }

  /** One route for each verb the use serves, in order, at its prefix and path. */
  ghost predicate RoutesFor(repo: Repo, file: File, u: Use, routes: seq<Route>)
    requires u.call.Call?
  {
    exists verbs, e, path ::
      Serves(u, verbs) && PathReads(repo, file, u.call, e, path) && RouteForEach(u, verbs, e, path, routes)
  }

  ghost predicate RouteForEach(u: Use, verbs: seq<string>, e: Expr, path: string, routes: seq<Route>)
    requires u.call.Call?
  {
    |routes| == |verbs| && forall i | 0 <= i < |verbs| :: RouteFor(u, verbs[i], e, path, routes[i])
  }

  // ---------------------------------------------------------------------------------
  // The walk follows the table

  lemma {:induction false} KeywordFirst(keywords: seq<Keyword>, name: string) returns (k: nat)
    ensures KeywordValue(keywords, name).Some? ==>
      k < |keywords| && FirstAt(keywords, name, k) && KeywordValue(keywords, name).value == keywords[k].value
    ensures KeywordValue(keywords, name).None? ==> forall j | 0 <= j < |keywords| :: keywords[j].arg != Some(name)
  {
    k := 0;
    if keywords != [] && keywords[0].arg != Some(name) {
      var j := KeywordFirst(keywords[1..], name);
      k := j + 1;
    }
  }

  lemma KeywordIs(call: Expr, name: string, e: Expr)
    requires call.Call?
    ensures KeywordValue(call.keywords, name) == Some(e) <==> Keyed(call, name, e)
    ensures KeywordValue(call.keywords, name).None? <==> Unkeyed(call, name)
  {
    var k := KeywordFirst(call.keywords, name);
  }

  lemma {:induction false} VerbsAre(elts: seq<Expr>, verbs: seq<string>)
    ensures Verbs(elts) == Ok(verbs) <==> InCapitals(elts, verbs)
    ensures Verbs(elts).Err? ==> Verbs(elts).error == NotALiteralVerb
  {
    if elts == [] {
    } else if verbs == [] {
      VerbsAre(elts[1..], []);
    } else {
      VerbsAre(elts[1..], verbs[1..]);
      assert verbs == [verbs[0]] + verbs[1..];
    }
  }

  lemma MethodsAre(call: Expr, verbs: seq<string>)
    requires call.Call?
    ensures MethodsOf(call) == Ok(verbs) <==> ListsVerbs(call, verbs)
    ensures MethodsOf(call) == Err(NoMethods) <==> Unkeyed(call, "methods")
    ensures MethodsOf(call).Err? ==> MethodsOf(call).error in {NoMethods, NotALiteralVerb}
  {
    var m := KeywordValue(call.keywords, "methods");
    hide KeywordValue, Keyed, Unkeyed, InCapitals, Verbs;
    if m.Some? {
      KeywordIs(call, "methods", m.value);
      if m.value.Listing? {
        VerbsAre(m.value.elts, verbs);
      }
    }
    forall e ensures m == Some(e) <==> Keyed(call, "methods", e) {
      KeywordIs(call, "methods", e);
    }
    KeywordIs(call, "methods", OtherConstant);
  }

  lemma Capitals()
    ensures Upper("get") == "GET" && Upper("post") == "POST" && Upper("put") == "PUT" && Upper("delete") == "DELETE"
    ensures Upper("patch") == "PATCH" && Upper("head") == "HEAD" && Upper("options") == "OPTIONS"
    ensures Upper("trace") == "TRACE"
  {
  }

  /** Every name of the table is in the surface the walk looks for, and `host` and `include_router` besides. */
  lemma Surface(attr: string)
    ensures attr in ROUTER_SURFACE_CALLS <==>
      DecoratorFate(attr) != Refused || CallFate(attr) != Refused || attr == "host" || attr == "include_router"
  {
  }

  /** The verbs of a use are those of the table, and what the table refuses is refused as uncountable. */
  lemma VerbTable(u: Use, verbs: seq<string>)
    requires u.call.Call?
    ensures VerbsOf(u) == Ok(verbs) <==> Serves(u, verbs)
    ensures VerbsOf(u) == Err(Uncounted) <==> Fated(u) == Refused
    ensures VerbsOf(u) == Err(NoMethods) <==> Fated(u) == Listed && Unkeyed(u.call, "methods")
  {
    Capitals();
    MethodsAre(u.call, verbs);
    hide MethodsOf, Upper, ListsVerbs, Unkeyed;
  }

  /** An attribute that can add a served surface, by either table, or is refused wherever it stands. */
  predicate OnSurface(attr: string) {
    DecoratorFate(attr) != Refused || CallFate(attr) != Refused || attr == "host" || attr == "include_router"
  }

  /** What the walk takes for a use is such an attribute on a plain name; what the net checks, on anything. */
  lemma SurfaceRead(e: Expr, site: Site, spot: Spot)
    ensures SiteOf(e) == Some(site) <==> e == Attr(site.node, Name(site.base), site.attr) && OnSurface(site.attr)
    ensures SpotOf(e) == Some(spot) <==>
      && OnSurface(spot.attr) && e.Attr? && e == Attr(spot.node, e.base, spot.attr)
      && (spot.base.Some? ==> e.base == Name(spot.base.value)) && (spot.base.None? ==> !e.base.Name?)
  {
    if e.Attr? {
      Surface(e.attr);
    }
    Surface(site.attr);
    Surface(spot.attr);
    hide DecoratorFate, CallFate, ROUTER_SURFACE_CALLS;
  }

  /** `APIRouter(...)`, by itself or read off anything. */
  ghost predicate MakesRouter(e: Expr) {
    e.Call? && (e.func == Name("APIRouter") || exists node, base :: e.func == Attr(node, base, "APIRouter"))
  }

  lemma RouterIs(e: Expr)
    ensures IsApiRouter(e) <==> MakesRouter(e)
  {
    if IsApiRouter(e) && e.func.Attr? {
      assert e.func == Attr(e.func.node, e.func.base, "APIRouter");
    }
  }

  lemma PathExprIs(call: Expr, e: Expr)
    requires call.Call?
    ensures PathExpr(call) == Some(e) <==>
      Keyed(call, "path", e) || (Unkeyed(call, "path") && call.args != [] && call.args[0] == e)
  {
    KeywordIs(call, "path", e);
    hide Keyed, Unkeyed, KeywordValue;
  }

  lemma PathIs(repo: Repo, file: File, u: Use, e: Expr, path: string)
    requires u.call.Call?
    ensures PathExpr(u.call) == Some(e) && PathOf(repo, file, u) == Ok(path) <==> PathReads(repo, file, u.call, e, path)
  {
    PathExprIs(u.call, e);
    LiteralAdequate(repo, e, file, path);
    hide Keyed, Unkeyed, PathExpr, ExprDenotes, Literal;
  }

  lemma PrefixIs(repo: Repo, file: File, router: Expr, prefix: string)
    requires router.Call?
    ensures PrefixOf(repo, file, router) == Ok(prefix) <==> PrefixReads(repo, file, router, prefix)
  {
    hide Keyed, Unkeyed, KeywordValue, ExprDenotes, Literal;
    forall e ensures KeywordValue(router.keywords, "prefix") == Some(e) <==> Keyed(router, "prefix", e) {
      KeywordIs(router, "prefix", e);
    }
    KeywordIs(router, "prefix", OtherConstant);
    if KeywordValue(router.keywords, "prefix").Some? {
      LiteralAdequate(repo, KeywordValue(router.keywords, "prefix").value, file, prefix);
    }
  }

  lemma SecondIs(call: Expr, name: string, what: Option<Expr>)
    requires call.Call?
    ensures Second(call, name) == what <==> Hands(call, name, what)
  {
    KeywordIs(call, name, if what.Some? then what.value else OtherConstant);
    hide Keyed, Unkeyed, KeywordValue;
  }

  lemma HandlerIs(u: Use, handler: Handler)
    requires u.call.Call? && Fated(u) != Refused
    ensures HandlerOf(u) == handler <==> HandledBy(u, handler)
    ensures KindOf(u) == KindFated(u)
  {
    if handler.Passed? {
      SecondIs(u.call, "app", handler.what);
      SecondIs(u.call, "endpoint", handler.what);
    }
    hide Second, Hands;
  }

  // ---------------------------------------------------------------------------------
  // Aliases

  lemma NamedAppend(a: seq<Expr>, b: seq<Expr>, x: string)
    ensures NamedIn(a + b, x) <==> NamedIn(a, x) || NamedIn(b, x)
  {
    var c := a + b;
    hide Names;
    if i :| 0 <= i < |a| && Names(a[i], x) {
      assert c[i] == a[i];
    }
    if i :| 0 <= i < |b| && Names(b[i], x) {
      assert c[|a| + i] == b[i];
    }
  }

  /** A path's aliases are the names among the pieces of its own expression. */
  lemma {:induction false} AliasesAre(e: Expr, x: string)
    ensures x in Aliases(e) <==> NamedIn(Leaves(e), x)
  {
    match e
    case Add(left, right) =>
      AliasesAre(left, x);
      AliasesAre(right, x);
      NamedAppend(Leaves(left), Leaves(right), x);
    case FString(parts) =>
      AliasesOfPartsAre(parts, x);
    case _ =>
      assert NamedIn([e], x) <==> Names([e][0], x);
  }

  lemma {:induction false} AliasesOfPartsAre(parts: seq<Part>, x: string)
    ensures x in AliasesOfParts(parts) <==> NamedIn(LeavesOfParts(parts), x)
  {
    if parts != [] {
      AliasesOfPartAre(parts[0], x);
      AliasesOfPartsAre(parts[1..], x);
      NamedAppend(LeavesOfPart(parts[0]), LeavesOfParts(parts[1..]), x);
    }
  }

  lemma {:induction false} AliasesOfPartAre(p: Part, x: string)
    ensures x in AliasesOfPart(p) <==> NamedIn(LeavesOfPart(p), x)
  {
    if p.Hole? {
      AliasesAre(p.value, x);
      NamedAppend(Leaves(p.value), if p.plain then [] else [OtherConstant], x);
    }
  }

  /** What the pieces denote, run together. */
  ghost function Spelled(repo: Repo, n: nat, leaves: seq<Expr>, f: File): Option<string> {
    if leaves == [] then Some("") else Joined(MeaningExpr(repo, n, leaves[0], f), Spelled(repo, n, leaves[1..], f))
  }

  lemma JoinedLaws(a: Option<string>, b: Option<string>, c: Option<string>)
    ensures Joined(a, Joined(b, c)) == Joined(Joined(a, b), c)
    ensures Joined(a, Some("")) == a && Joined(Some(""), a) == a
  {
    if a.Some? && b.Some? && c.Some? {
      ConcatAssoc(a.value, b.value, c.value);
    }
    if a.Some? {
      assert a.value + "" == a.value && "" + a.value == a.value;
    }
  }

  lemma {:induction false} SpelledAppend(repo: Repo, n: nat, a: seq<Expr>, b: seq<Expr>, f: File)
    ensures Spelled(repo, n, a + b, f) == Joined(Spelled(repo, n, a, f), Spelled(repo, n, b, f))
  {
    if a == [] {
      assert a + b == b;
      JoinedLaws(Spelled(repo, n, b, f), None, None);
    } else {
      SpelledAppend(repo, n, a[1..], b, f);
      assert (a + b)[1..] == a[1..] + b && (a + b)[0] == a[0];
      JoinedLaws(MeaningExpr(repo, n, a[0], f), Spelled(repo, n, a[1..], f), Spelled(repo, n, b, f));
    }
  }

  /** An expression denotes its pieces, run together: nothing is dropped and nothing changes places. */
  lemma {:induction false} LeavesSpell(repo: Repo, n: nat, e: Expr, f: File)
    ensures MeaningExpr(repo, n, e, f) == Spelled(repo, n, Leaves(e), f)
  {
    match e
    case Add(left, right) =>
      LeavesSpell(repo, n, left, f);
      LeavesSpell(repo, n, right, f);
      SpelledAppend(repo, n, Leaves(left), Leaves(right), f);
    case FString(parts) =>
      PartsSpell(repo, n, parts, f);
    case _ =>
      OneSpelled(repo, n, e, f);
  }

  lemma OneSpelled(repo: Repo, n: nat, e: Expr, f: File)
    ensures Spelled(repo, n, [e], f) == MeaningExpr(repo, n, e, f)
  {
    assert [e][1..] == [];
    JoinedLaws(MeaningExpr(repo, n, e, f), None, None);
  }

  lemma {:induction false} PartsSpell(repo: Repo, n: nat, parts: seq<Part>, f: File)
    ensures MeaningParts(repo, n, parts, f) == Spelled(repo, n, LeavesOfParts(parts), f)
  {
    if parts != [] {
      PartSpells(repo, n, parts[0], f);
      PartsSpell(repo, n, parts[1..], f);
      SpelledAppend(repo, n, LeavesOfPart(parts[0]), LeavesOfParts(parts[1..]), f);
    }
  }

  lemma {:induction false} PartSpells(repo: Repo, n: nat, p: Part, f: File)
    ensures MeaningPart(repo, n, p, f) == Spelled(repo, n, LeavesOfPart(p), f)
  {
    match p
    case Text(text) => OneSpelled(repo, n, Str(text), f);
    case Hole(value, plain) =>
      LeavesSpell(repo, n, value, f);
      SpelledAppend(repo, n, Leaves(value), if plain then [] else [OtherConstant], f);
      OneSpelled(repo, n, OtherConstant, f);
      JoinedLaws(MeaningExpr(repo, n, value, f), None, None);
  }

  // ---------------------------------------------------------------------------------
  // The routes of a use

  lemma RecordIs(u: Use, verbs: seq<string>, e: Expr, path: string, routes: seq<Route>)
    requires u.call.Call? && Fated(u) != Refused && PathExpr(u.call) == Some(e)
    ensures routes == Record(u, verbs, Join(u.prefix, path)) <==> RouteForEach(u, verbs, e, path, routes)
  {
    var made := Record(u, verbs, Join(u.prefix, path));
    forall x ensures x in Aliases(e) <==> NamedIn(Leaves(e), x) {
      AliasesAre(e, x);
    }
    forall i | 0 <= i < |verbs| && i < |routes| ensures routes[i] == made[i]
      <==> RouteFor(u, verbs[i], e, path, routes[i]) {
      HandlerIs(u, routes[i].handler);
      assert made[i].aliases == Aliases(e);
      assert routes[i].aliases == Aliases(e) <==> forall x :: x in routes[i].aliases <==> NamedIn(Leaves(e), x);
      hide HandlerOf, KindOf, HandledBy, KindFated, Aliases, NamedIn, Leaves, PathExpr;
    }
    hide RouteFor, Record;
  }

  /** The routes a use adds are exactly those of the table, whatever the attribute and the call. */
  lemma RoutesOfTable(repo: Repo, file: File, u: Use, routes: seq<Route>)
    requires u.call.Call?
    ensures RoutesOf(repo, file, u) == Ok(routes) <==> RoutesFor(repo, file, u, routes)
  {
    hide *;
    if RoutesOf(repo, file, u) == Ok(routes) {
      var verbs, e, path := RoutesRead(repo, file, u, routes);
      VerbTable(u, verbs);
      PathIs(repo, file, u, e, path);
      RecordIs(u, verbs, e, path, routes);
      TableHolds(repo, file, u, verbs, e, path, routes);
    }
    if RoutesFor(repo, file, u, routes) {
      var verbs, e, path := TableReads(repo, file, u, routes);
      VerbTable(u, verbs);
      PathIs(repo, file, u, e, path);
      RecordIs(u, verbs, e, path, routes);
      RoutesWritten(repo, file, u, verbs, path);
    }
  }

  lemma RoutesRead(repo: Repo, file: File, u: Use, routes: seq<Route>)
    returns (verbs: seq<string>, e: Expr, path: string)
    requires u.call.Call? && RoutesOf(repo, file, u) == Ok(routes)
    ensures VerbsOf(u) == Ok(verbs) && PathExpr(u.call) == Some(e) && PathOf(repo, file, u) == Ok(path)
    ensures routes == Record(u, verbs, Join(u.prefix, path)) && Fated(u) != Refused
  {
    VerbTable(u, []);
    hide VerbsOf, Serves, Fated, PathExpr, Literal, Record;
    verbs, e, path := VerbsOf(u).value, PathExpr(u.call).value, PathOf(repo, file, u).value;
  }

  lemma RoutesWritten(repo: Repo, file: File, u: Use, verbs: seq<string>, path: string)
    requires u.call.Call? && VerbsOf(u) == Ok(verbs) && PathOf(repo, file, u) == Ok(path)
    ensures RoutesOf(repo, file, u) == Ok(Record(u, verbs, Join(u.prefix, path)))
  {
    hide VerbsOf, PathOf, Record;
  }

  lemma TableReads(repo: Repo, file: File, u: Use, routes: seq<Route>)
    returns (verbs: seq<string>, e: Expr, path: string)
    requires u.call.Call? && RoutesFor(repo, file, u, routes)
    ensures Serves(u, verbs) && PathReads(repo, file, u.call, e, path) && Fated(u) != Refused
    ensures RouteForEach(u, verbs, e, path, routes)
  {
    hide PathReads, RouteForEach, ListsVerbs, Fated;
    verbs, e, path :|
      Serves(u, verbs) && PathReads(repo, file, u.call, e, path) && RouteForEach(u, verbs, e, path, routes);
  }

  lemma TableHolds(repo: Repo, file: File, u: Use, verbs: seq<string>, e: Expr, path: string, routes: seq<Route>)
    requires u.call.Call? && Serves(u, verbs) && PathReads(repo, file, u.call, e, path)
    requires RouteForEach(u, verbs, e, path, routes)
    ensures RoutesFor(repo, file, u, routes)
  {
    hide Serves, PathReads, RouteForEach;
  }
}
