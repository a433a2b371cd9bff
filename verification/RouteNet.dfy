// proxyshop_support/route_census.py, `_assert_nothing_missed`: the net sees what `ast.walk` sees, that is every
// expression that can be reached from the file's statements, child by child.
module RouteNet {
  import opened Prelude
  import opened RouteConstants
  import opened RouteWalk

  // ---------------------------------------------------------------------------------
  // The tree: the expressions an expression is made of, and what a statement is made of

  function HoleValues(parts: seq<Part>): (r: seq<Expr>)
    ensures forall p | p in parts && p.Hole? :: p.value in r
    ensures forall e | e in r :: exists i :: 0 <= i < |parts| && parts[i].Hole? && parts[i].value == e
  {
    if parts == [] then [] else (if parts[0].Hole? then [parts[0].value] else []) + HoleValues(parts[1..])
  }

  function Values(keywords: seq<Keyword>): (r: seq<Expr>)
    ensures |r| == |keywords| && forall i | 0 <= i < |r| :: r[i] == keywords[i].value
  {
    seq(|keywords|, i requires 0 <= i < |keywords| => keywords[i].value)
  }

  function ChildrenOf(e: Expr): seq<Expr> {
    match e
    case Str(_) => []
    case OtherConstant => []
    case Name(_) => []
    case Attr(_, base, _) => [base]
    case FString(parts) => HoleValues(parts)
    case Add(left, right) => [left, right]
    case Call(func, args, keywords) => [func] + args + Values(keywords)
    case Listing(elts) => elts
    case Named(_, value) => [value]
    case Other(children) => children
  }

  /** The expressions of a statement itself: of a `for` its iterable, of a `def` its defaults and annotations. */
  function ExprsOf(st: Stmt): seq<Expr> {
    match st
    case Assign(targets, value) => targets + [value]
    case AnnAssign(target, annotation, given) => [target, annotation] + if given.Some? then [given.value] else []
    case FunctionDef(_, decorators, header, _) => decorators + header
    case ClassDef(_, header, _) => header
    case ExprStmt(value) => [value]
    case Plain(header, _, _) => header
    case Leave(_, header) => header
    case Block(_, header, _, _) => header
  }

  /** The statement lists inside a statement, walked or not. */
  function BodiesOf(st: Stmt): seq<seq<Stmt>> {
    match st
    case FunctionDef(_, _, _, body) => [body]
    case ClassDef(_, _, body) => [body]
    case Block(_, _, blocks, unwalked) => Bodies(blocks) + Bodies(unwalked)
    case _ => []
  }

  function Bodies(suites: seq<Suite>): (r: seq<seq<Stmt>>)
    ensures |r| == |suites| && forall i | 0 <= i < |r| :: r[i] == suites[i].body
  {
    seq(|suites|, i requires 0 <= i < |suites| => suites[i].body)
  }

  /** `x` is `e`, or below it within `n` levels. */
  ghost predicate Below(e: Expr, x: Expr, n: nat) {
    x == e || (n > 0 && exists c :: c in ChildrenOf(e) && Below(c, x, n - 1))
  }

  /** `x` is somewhere in these statements, `n` statements deep or less. */
  ghost predicate Within(body: seq<Stmt>, x: Expr, n: nat) {
    exists i :: 0 <= i < |body| && WithinStmt(body[i], x, n)
  }

  ghost predicate WithinStmt(st: Stmt, x: Expr, n: nat) {
    || InExprs(st, x)
    || (n > 0 && exists b :: b in BodiesOf(st) && Within(b, x, n - 1))
  }

  ghost predicate InExprs(st: Stmt, x: Expr) {
    exists e, d: nat :: e in ExprsOf(st) && Below(e, x, d)
  }

  // ---------------------------------------------------------------------------------
  // Nothing of an expression is left out, and nothing added

  lemma {:induction false} AllHas(es: seq<Expr>, i: nat, s: Spot)
    requires i < |es| && s in SitesIn(es[i])
    ensures s in SitesInAll(es)
  {
    hide SitesIn;
    if i > 0 {
      assert es[1..][i - 1] == es[i];
      AllHas(es[1..], i - 1, s);
    }
  }

  lemma {:induction false} AllFrom(es: seq<Expr>, s: Spot) returns (i: nat)
    requires s in SitesInAll(es)
    ensures i < |es| && s in SitesIn(es[i])
  {
    hide SitesIn;
    if s in SitesIn(es[0]) {
      i := 0;
    } else {
      i := AllFrom(es[1..], s);
      i := i + 1;
    }
  }

  lemma {:induction false} PartsHave(parts: seq<Part>, i: nat, s: Spot)
    requires i < |parts| && parts[i].Hole? && s in SitesIn(parts[i].value)
    ensures s in SitesInParts(parts)
  {
    hide SitesIn;
    if i > 0 {
      assert parts[1..][i - 1] == parts[i];
      PartsHave(parts[1..], i - 1, s);
    }
  }

  lemma {:induction false} PartsFrom(parts: seq<Part>, s: Spot) returns (i: nat)
    requires s in SitesInParts(parts)
    ensures i < |parts| && parts[i].Hole? && s in SitesIn(parts[i].value)
  {
    hide SitesIn;
    if s in SitesInPart(parts[0]) {
      i := 0;
    } else {
      i := PartsFrom(parts[1..], s);
      i := i + 1;
    }
  }

  lemma {:induction false} KeywordsHave(ks: seq<Keyword>, i: nat, s: Spot)
    requires i < |ks| && s in SitesIn(ks[i].value)
    ensures s in SitesInKeywords(ks)
  {
    hide SitesIn;
    if i > 0 {
      assert ks[1..][i - 1] == ks[i];
      KeywordsHave(ks[1..], i - 1, s);
    }
  }

  lemma {:induction false} KeywordsFrom(ks: seq<Keyword>, s: Spot) returns (i: nat)
    requires s in SitesInKeywords(ks)
    ensures i < |ks| && s in SitesIn(ks[i].value)
  {
    hide SitesIn;
    if s in SitesInKeyword(ks[0]) {
      i := 0;
    } else {
      i := KeywordsFrom(ks[1..], s);
      i := i + 1;
    }
  }

  lemma ChildIsSeen(e: Expr, c: Expr, s: Spot)
    requires c in ChildrenOf(e) && s in SitesIn(c)
    ensures s in SitesIn(e)
  {
    match e
    case Attr(_, base, _) =>
    case FString(parts) =>
      var i :| 0 <= i < |parts| && parts[i].Hole? && parts[i].value == c;
      PartsHave(parts, i, s);
    case Add(left, right) =>
    case Call(func, args, keywords) =>
      CallIsSeen(func, args, keywords, c, s);
    case Listing(elts) =>
      var i :| 0 <= i < |elts| && elts[i] == c;
      AllHas(elts, i, s);
    case Named(_, value) =>
    case Other(children) =>
      var i :| 0 <= i < |children| && children[i] == c;
      AllHas(children, i, s);
  }

  lemma CallIsSeen(func: Expr, args: seq<Expr>, keywords: seq<Keyword>, c: Expr, s: Spot)
    requires c in [func] + args + Values(keywords) && s in SitesIn(c)
    ensures s in SitesIn(Call(func, args, keywords))
  {
    if c in args {
      var i :| 0 <= i < |args| && args[i] == c;
      AllHas(args, i, s);
    } else if c != func {
      var i :| 0 <= i < |keywords| && Values(keywords)[i] == c;
      KeywordsHave(keywords, i, s);
    }
  }

  lemma {:induction false} BelowIsSeen(e: Expr, x: Expr, n: nat, s: Spot)
    requires Below(e, x, n) && SpotOf(x) == Some(s)
    ensures s in SitesIn(e)
    decreases n
  {
    if x != e {
      var c :| c in ChildrenOf(e) && Below(c, x, n - 1);
      BelowIsSeen(c, x, n - 1, s);
      ChildIsSeen(e, c, s);
    }
  }

  lemma OneBelow(e: Expr, c: Expr, x: Expr, n: nat)
    requires c in ChildrenOf(e) && Below(c, x, n)
    ensures Below(e, x, n + 1)
  {
  }

  /** What is seen of an expression, and is not the expression itself, is seen of one of its parts. */
  lemma SeenInPart(e: Expr, s: Spot)
    requires s in SitesIn(e) && SpotOf(e) != Some(s)
    ensures match e
      case Attr(_, base, _) => s in SitesIn(base)
      case FString(parts) => s in SitesInParts(parts)
      case Add(left, right) => s in SitesIn(left) || s in SitesIn(right)
      case Call(func, args, keywords) => s in SitesIn(func) || s in SitesInAll(args) || s in SitesInKeywords(keywords)
      case Listing(elts) => s in SitesInAll(elts)
      case Named(_, value) => s in SitesIn(value)
      case Other(children) => s in SitesInAll(children)
      case _ => false
  {
    hide SitesInAll, SitesInParts, SitesInKeywords;
  }

  /** Whatever the net sees of an expression is an attribute somewhere below it. */
  lemma {:induction false} SeenIsBelow(e: Expr, s: Spot) returns (x: Expr, n: nat)
    requires s in SitesIn(e)
    ensures Below(e, x, n) && SpotOf(x) == Some(s)
    decreases e
  {
    if SpotOf(e) == Some(s) {
      x, n := e, 0;
    } else {
      SeenInPart(e, s);
      hide SitesIn, SitesInAll, SitesInParts, SitesInKeywords, SpotOf, Below;
      var c;
      match e {
        case Attr(_, base, _) =>
          c := base;
          x, n := SeenIsBelow(base, s);
        case FString(parts) =>
          var i := PartsFrom(parts, s);
          assert parts[i] in parts;
          c := parts[i].value;
          x, n := SeenIsBelow(parts[i].value, s);
        case Add(left, right) =>
          c := if s in SitesIn(left) then left else right;
          x, n := SeenIsBelow(if s in SitesIn(left) then left else right, s);
        case Call(func, args, keywords) =>
          if s in SitesIn(func) {
            c := func;
            x, n := SeenIsBelow(func, s);
          } else if s in SitesInAll(args) {
            var i := AllFrom(args, s);
            c := args[i];
            x, n := SeenIsBelow(args[i], s);
          } else {
            var i := KeywordsFrom(keywords, s);
            c := keywords[i].value;
            assert Values(keywords)[i] == c;
            x, n := SeenIsBelow(keywords[i].value, s);
          }
        case Listing(elts) =>
          var i := AllFrom(elts, s);
          c := elts[i];
          x, n := SeenIsBelow(elts[i], s);
        case Named(_, value) =>
          c := value;
          x, n := SeenIsBelow(value, s);
        case Other(children) =>
          var i := AllFrom(children, s);
          c := children[i];
          x, n := SeenIsBelow(children[i], s);
      }
      OneBelow(e, c, x, n);
      n := n + 1;
    }
  }

  // ---------------------------------------------------------------------------------
  // Nor of the statements

  lemma {:induction false} ConcatFrom(a: seq<Expr>, b: seq<Expr>, s: Spot)
    ensures s in SitesInAll(a + b) <==> s in SitesInAll(a) || s in SitesInAll(b)
  {
    hide SitesIn;
    if a == [] {
      assert a + b == b;
    } else {
      assert (a + b)[0] == a[0] && (a + b)[1..] == a[1..] + b;
      ConcatFrom(a[1..], b, s);
    }
  }

  lemma OneExpr(e: Expr, s: Spot)
    ensures s in SitesInAll([e]) <==> s in SitesIn(e)
  {
    hide SitesIn;
    assert [e][1..] == [];
  }

  /** A statement's own expressions and the bodies inside it are all there is to it. */
  lemma StmtSites(st: Stmt, s: Spot)
    ensures s in SitesOfStmt(st) <==>
      s in SitesInAll(ExprsOf(st)) || exists b :: b in BodiesOf(st) && s in SitesOfBody(b)
  {
    hide SitesIn, SitesInAll, SitesOfBody;
    match st
    case Assign(targets, value) =>
      ConcatFrom(targets, [value], s);
      OneExpr(value, s);
    case AnnAssign(target, annotation, given) =>
      ConcatFrom([target], [annotation], s);
      assert [target] + [annotation] == [target, annotation];
      ConcatFrom([target, annotation], if given.Some? then [given.value] else [], s);
      OneExpr(target, s);
      OneExpr(annotation, s);
      if given.Some? {
        OneExpr(given.value, s);
      } else {
        assert [target, annotation] + [] == [target, annotation];
      }
    case FunctionDef(_, decorators, header, body) =>
      ConcatFrom(decorators, header, s);
      assert body in BodiesOf(st);
    case ClassDef(_, _, body) =>
      assert body in BodiesOf(st);
    case ExprStmt(value) =>
      OneExpr(value, s);
    case Block(_, _, blocks, unwalked) =>
      SuiteSites(blocks, s);
      SuiteSites(unwalked, s);
    case _ =>
  }

  lemma {:induction false} SuiteSites(suites: seq<Suite>, s: Spot)
    ensures s in SitesOfSuites(suites) <==> exists b :: b in Bodies(suites) && s in SitesOfBody(b)
  {
    if suites != [] {
      SuiteSites(suites[1..], s);
      var rest, all := Bodies(suites[1..]), Bodies(suites);
      assert all == [suites[0].body] + rest;
      assert SitesOfSuites(suites) == SitesOfBody(suites[0].body) + SitesOfSuites(suites[1..]);
      hide SitesOfBody, SitesOfSuites;
      assert all[0] in all && forall b | b in rest :: b in all;
    }
  }

  lemma {:induction false} BodySites(body: seq<Stmt>, s: Spot)
    ensures s in SitesOfBody(body) <==> exists i :: 0 <= i < |body| && s in SitesOfStmt(body[i])
  {
    hide SitesOfStmt;
    if body != [] {
      var rest := body[1..];
      BodySites(rest, s);
      if i :| 0 <= i < |rest| && s in SitesOfStmt(rest[i]) {
        assert body[i + 1] == rest[i];
      }
      if i :| 0 <= i < |body| && s in SitesOfStmt(body[i]) {
        assert i > 0 ==> rest[i - 1] == body[i];
      }
    }
  }

  lemma {:induction false} WithinIsSeen(body: seq<Stmt>, x: Expr, n: nat, s: Spot)
    requires Within(body, x, n) && SpotOf(x) == Some(s)
    ensures s in SitesOfBody(body)
    decreases n
  {
    hide SitesOfBody, SitesOfStmt, SitesInAll, SpotOf, InExprs;
    var i :| 0 <= i < |body| && WithinStmt(body[i], x, n);
    BodySites(body, s);
    StmtSites(body[i], s);
    if InExprs(body[i], x) {
      ExprsSeen(body[i], x, s);
    } else {
      var b :| b in BodiesOf(body[i]) && Within(b, x, n - 1);
      WithinIsSeen(b, x, n - 1, s);
    }
  }

  lemma ExprsSeen(st: Stmt, x: Expr, s: Spot)
    requires InExprs(st, x) && SpotOf(x) == Some(s)
    ensures s in SitesInAll(ExprsOf(st))
  {
    var e, d: nat :| e in ExprsOf(st) && Below(e, x, d);
    BelowIsSeen(e, x, d, s);
    var i :| 0 <= i < |ExprsOf(st)| && ExprsOf(st)[i] == e;
    AllHas(ExprsOf(st), i, s);
  }

  lemma {:induction false} SeenIsWithin(body: seq<Stmt>, s: Spot) returns (x: Expr, n: nat)
    requires s in SitesOfBody(body)
    ensures Within(body, x, n) && SpotOf(x) == Some(s)
    decreases body
  {
    BodySites(body, s);
    var i :| 0 <= i < |body| && s in SitesOfStmt(body[i]);
    x, n := SeenInStmt(body[i], s);
  }

  lemma InBody(st: Stmt, b: seq<Stmt>, x: Expr, n: nat)
    requires b in BodiesOf(st) && Within(b, x, n)
    ensures WithinStmt(st, x, n + 1)
  {
  }

  lemma InHeader(st: Stmt, s: Spot) returns (x: Expr, n: nat)
    requires s in SitesInAll(ExprsOf(st))
    ensures WithinStmt(st, x, n) && SpotOf(x) == Some(s)
  {
    hide ExprsOf, SitesInAll, SitesIn, SpotOf, Below;
    var i := AllFrom(ExprsOf(st), s);
    var d;
    x, d := SeenIsBelow(ExprsOf(st)[i], s);
    assert ExprsOf(st)[i] in ExprsOf(st);
    n := 0;
  }

  lemma {:induction false} SeenInStmt(st: Stmt, s: Spot) returns (x: Expr, n: nat)
    requires s in SitesOfStmt(st)
    ensures WithinStmt(st, x, n) && SpotOf(x) == Some(s)
    decreases st
  {
    hide SitesOfStmt, SitesOfBody, SitesInAll, SpotOf, Within, WithinStmt, ExprsOf;
    StmtSites(st, s);
    if s in SitesInAll(ExprsOf(st)) {
      x, n := InHeader(st, s);
    } else {
      var m;
      match st {
        case FunctionDef(_, _, _, body) =>
          x, m := SeenIsWithin(body, s);
          InBody(st, body, x, m);
        case ClassDef(_, _, body) =>
          x, m := SeenIsWithin(body, s);
          InBody(st, body, x, m);
        case Block(_, _, blocks, unwalked) =>
          var suites := if exists b :: b in Bodies(blocks) && s in SitesOfBody(b) then blocks else unwalked;
          var i := BodyFrom(suites, s);
          assert Bodies(suites)[i] in BodiesOf(st);
          x, m := SeenIsWithin(suites[i].body, s);
          InBody(st, suites[i].body, x, m);
      }
      n := m + 1;
    }
  }

  lemma BodyFrom(suites: seq<Suite>, s: Spot) returns (i: nat)
    requires exists b :: b in Bodies(suites) && s in SitesOfBody(b)
    ensures i < |suites| && s in SitesOfBody(suites[i].body)
  {
    var b :| b in Bodies(suites) && s in SitesOfBody(b);
    i :| 0 <= i < |suites| && Bodies(suites)[i] == b;
  }

  /**
   * "Every router-surface attribute in the file": what the net checks are the surface attributes among all expressions
   * that can be reached in the tree, at any depth, in walked bodies, the cases of a `match`, arguments and keywords.
   */
  lemma NetSeesAll(tree: seq<Stmt>, spot: Spot)
    ensures spot in SitesOfBody(tree) <==> exists x, n :: Within(tree, x, n) && SpotOf(x) == Some(spot)
  {
    if spot in SitesOfBody(tree) {
      var x, n := SeenIsWithin(tree, spot);
    }
    if x, n :| Within(tree, x, n) && SpotOf(x) == Some(spot) {
      WithinIsSeen(tree, x, n, spot);
    }
  }
}
