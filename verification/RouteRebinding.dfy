// Whether the prefix the census reports for a route is the one its router has when the route is made.
module RouteRebinding {
  import opened Prelude
  import opened RouteConstants
  import opened RouteWalk
  import opened RouteCensus
  import opened RoutePaths
  import opened RouteRuns

  // ---------------------------------------------------------------------------------
  // Which binding a body sees

  /** The statement binds `name` to a router with this prefix. */
  ghost predicate Binds(repo: Repo, file: File, st: Stmt, name: string, prefix: string) {
    Assigned(st).Some? && IsApiRouter(Assigned(st).value.0) && Name(name) in Assigned(st).value.1
    && PrefixOf(repo, file, Assigned(st).value.0) == Ok(prefix)
  }

  ghost predicate BoundLast(repo: Repo, file: File, body: seq<Stmt>, i: nat, name: string, prefix: string)
    requires i < |body|
  {
    Binds(repo, file, body[i], name, prefix) && forall j | i < j < |body| :: BindsNot(repo, file, body[j], name)
  }

  ghost predicate BindsNot(repo: Repo, file: File, st: Stmt, name: string) {
    forall prefix :: !Binds(repo, file, st, name, prefix)
  }

  lemma {:induction false} TargetVisible(targets: seq<Expr>, prefix: string, name: string)
    ensures Visible(TargetBindings(targets, prefix), name) == if Name(name) in targets then Some(prefix) else None
  {
    if targets != [] {
      TargetVisible(targets[1..], prefix, name);
      assert Name(name) in targets <==> Name(name) == targets[0] || Name(name) in targets[1..];
      if targets[0].Name? {
        assert TargetBindings(targets, prefix)[1..] == TargetBindings(targets[1..], prefix);
      } else {
        assert [] + TargetBindings(targets[1..], prefix) == TargetBindings(targets[1..], prefix);
      }
    }
  }

  lemma OwnBinding(repo: Repo, file: File, st: Stmt, name: string)
    ensures match Visible(BindingsOf(repo, file, st), name)
            case Some(prefix) => Binds(repo, file, st, name, prefix)
            case None => BindsNot(repo, file, st, name)
  {
    if Assigned(st).Some? && IsApiRouter(Assigned(st).value.0) && PrefixOf(repo, file, Assigned(st).value.0).Ok? {
      TargetVisible(Assigned(st).value.1, PrefixOf(repo, file, Assigned(st).value.0).value, name);
    }
  }

  /**
   * Binding is hoisted and the last one wins: a body sees its own last binding of a name, or else what it
   * inherited.
   */
  lemma {:induction false} LastBindingWins(repo: Repo, file: File, trail: Trail, body: seq<Stmt>, name: string)
    ensures var seen := Visible(trail + Hoisted(repo, file, body), name);
      || (seen == Visible(trail, name) && forall i | 0 <= i < |body| :: BindsNot(repo, file, body[i], name))
      || (seen.Some? && exists i :: 0 <= i < |body| && BoundLast(repo, file, body, i, name, seen.value))
    decreases |body|
  {
    hide Binds, BindsNot;
    if body == [] {
      assert trail + [] == trail;
    } else {
      var own := BindingsOf(repo, file, body[0]);
      OwnBinding(repo, file, body[0], name);
      LastBindingWins(repo, file, trail + own, body[1..], name);
      ConcatAssoc(trail, own, Hoisted(repo, file, body[1..]));
      VisibleConcat(trail, own, name);
      hide Hoisted, Visible, BindingsOf;
      var seen := Visible(trail + Hoisted(repo, file, body), name);
      if i :| seen.Some? && 0 <= i < |body[1..]| && BoundLast(repo, file, body[1..], i, name, seen.value) {
        LaterBinding(repo, file, body, i, name, seen.value);
      } else {
        forall j | 0 < j < |body| ensures BindsNot(repo, file, body[j], name) {
          assert body[1..][j - 1] == body[j];
        }
        assert Visible(own, name).Some? ==> BoundLast(repo, file, body, 0, name, Visible(own, name).value);
      }
    }
  }

  lemma LaterBinding(repo: Repo, file: File, body: seq<Stmt>, i: nat, name: string, prefix: string)
    requires body != [] && i < |body[1..]| && BoundLast(repo, file, body[1..], i, name, prefix)
    ensures BoundLast(repo, file, body, i + 1, name, prefix)
  {
    hide Binds, BindsNot;
    forall j | i + 1 < j < |body| ensures BindsNot(repo, file, body[j], name) {
      assert body[1..][j - 1] == body[j];
    }
  }

  // ---------------------------------------------------------------------------------
  // What is reported

  lemma HoistedPrefix(repo: Repo, file: File, body: seq<Stmt>, k: nat)
    requires k <= |body|
    ensures Hoisted(repo, file, body) == Hoisted(repo, file, body[..k]) + Hoisted(repo, file, body[k..])
  {
    assert body == body[..k] + body[k..];
    HoistedConcat(repo, file, body[..k], body[k..]);
  }

  lemma {:induction false} HoistedConcat(repo: Repo, file: File, a: seq<Stmt>, b: seq<Stmt>)
    ensures Hoisted(repo, file, a + b) == Hoisted(repo, file, a) + Hoisted(repo, file, b)
  {
    hide BindingsOf;
    if a == [] {
      assert a + b == b;
    } else {
      HoistedConcat(repo, file, a[1..], b);
      assert (a + b)[1..] == a[1..] + b && (a + b)[0] == a[0];
    }
  }

  /** What the census has in scope at a statement of a body. */
  ghost function SeenAt(repo: Repo, file: File, trail: Trail, body: seq<Stmt>, i: nat): Trail
    requires i < |body|
  {
    trail + Hoisted(repo, file, body) + LeftStmts(repo, file, body[..i])
  }

  lemma UseSees(st: Stmt, trail: Trail, scope: string, u: Use)
    requires u in OwnUses(st, trail, scope)
    ensures Visible(trail, u.site.base) == Some(u.prefix)
  {
    hide Visible, SiteOf;
    if st.FunctionDef? {
      DecoratorSees(st.decorators, scope + "." + st.name, trail, u);
    }
  }

  lemma {:induction false} DecoratorSees(ds: seq<Expr>, scope: string, trail: Trail, u: Use)
    requires u in DecoratorUses(ds, scope, trail)
    ensures Visible(trail, u.site.base) == Some(u.prefix)
  {
    hide Visible, SiteOf;
    if u !in UseAt(ds[0], true, scope, trail) {
      DecoratorSees(ds[1..], scope, trail, u);
    }
  }

  lemma {:induction false} OwnUsesAreUses(repo: Repo, file: File, body: seq<Stmt>, i: nat, trail: Trail,
      scope: string, u: Use)
    requires i < |body| && u in OwnUses(body[i], trail + LeftStmts(repo, file, body[..i]), scope)
    ensures u in UsesOfStmts(repo, file, body, trail, scope)
    decreases i
  {
    hide OwnUses, Left;
    if i == 0 {
      assert trail + LeftStmts(repo, file, body[..0]) == trail;
      assert u in UsesOfStmt(repo, file, body[0], trail, scope);
    } else {
      var left := Left(repo, file, body[0]);
      assert body[..i][0] == body[0] && body[..i][1..] == body[1..][..i - 1];
      ConcatAssoc(trail, left, LeftStmts(repo, file, body[1..][..i - 1]));
      OwnUsesAreUses(repo, file, body[1..], i - 1, trail + left, scope, u);
      hide UsesOfStmt;
    }
  }

  /** A use a statement makes itself is one of the body's, and sees what the census has in scope there. */
  lemma OwnUse(repo: Repo, file: File, trail: Trail, body: seq<Stmt>, i: nat, scope: string, u: Use)
    requires i < |body| && u in OwnUses(body[i], SeenAt(repo, file, trail, body, i), scope)
    ensures u in UsesOfBody(repo, file, body, trail, scope)
    ensures Visible(SeenAt(repo, file, trail, body, i), u.site.base) == Some(u.prefix)
  {
    hide OwnUses, Visible, LeftStmts, Hoisted, UsesOfStmts;
    UseSees(body[i], SeenAt(repo, file, trail, body, i), scope, u);
    OwnUsesAreUses(repo, file, body, i, trail + Hoisted(repo, file, body), scope, u);
  }

  /**
   * What is reported: the last binding a block above leaves, or else the body's last, wherever it stands, or
   * else the inherited one.
   */
  lemma Reported(repo: Repo, file: File, trail: Trail, body: seq<Stmt>, i: nat, name: string)
    requires i < |body|
    ensures var left, below, above := Visible(LeftStmts(repo, file, body[..i]), name),
              Visible(Hoisted(repo, file, body[i..]), name), Visible(Hoisted(repo, file, body[..i]), name);
      Visible(SeenAt(repo, file, trail, body, i), name)
      == if left.Some? then left else if below.Some? then below else if above.Some? then above else Visible(trail, name)
  {
    hide Visible, LeftStmts, Hoisted;
    var hoisted := Hoisted(repo, file, body);
    HoistedPrefix(repo, file, body, i);
    VisibleConcat(trail + hoisted, LeftStmts(repo, file, body[..i]), name);
    VisibleConcat(trail, hoisted, name);
    VisibleConcat(Hoisted(repo, file, body[..i]), Hoisted(repo, file, body[i..]), name);
  }

  // ---------------------------------------------------------------------------------
  // What the router's name holds when the call is made

  /** The statement leaves the name alone, whatever it does. */
  ghost predicate Quiet(repo: Repo, file: File, st: Stmt, name: string) {
    if IsFlow(st) then forall e | e in Ends(FlowOf(repo, file, st, Through), name) :: e == Untouched
    else LastOwn(Owns(repo, file, st), name).None?
  }

  ghost predicate AllQuiet(repo: Repo, file: File, body: seq<Stmt>, name: string) {
    forall st | st in body :: Quiet(repo, file, st, name)
  }

  lemma QuietOver(repo: Repo, file: File, body: seq<Stmt>, env: Env, name: string, w: What)
    requires body != [] && Finishes(repo, file, body) && Quiet(repo, file, body[|body| - 1], name)
    ensures Sure(repo, file, body, env, name, w) <==> Sure(repo, file, body[..|body| - 1], env, name, w)
  {
    var st := body[|body| - 1];
    if IsFlow(st) {
      EndsSome(FlowOf(repo, file, st, Through), name);
    }
    hide FlowOf, Ends, CanFinish, Owns, LastOwn;
  }

  lemma {:induction false} QuietEnd(repo: Repo, file: File, body: seq<Stmt>, j: nat, env: Env, name: string, w: What)
    requires j <= |body| && Finishes(repo, file, body) && AllQuiet(repo, file, body[j..], name)
    ensures Sure(repo, file, body, env, name, w) <==> Sure(repo, file, body[..j], env, name, w)
    decreases |body|
  {
    var n := |body| - 1;
    if j == |body| {
      assert body[..j] == body;
    } else {
      assert body[j..][n - j] == body[n] && body[n] in body[j..];
      QuietOver(repo, file, body, env, name, w);
      FinishesParts(repo, file, body);
      assert forall st | st in body[..n][j..] :: st in body[j..];
      hide Quiet, Finishes, Sure;
      QuietEnd(repo, file, body[..n], j, env, name, w);
      assert body[..n][..j] == body[..j];
    }
  }

  lemma FinishesUpTo(repo: Repo, file: File, body: seq<Stmt>, j: nat)
    requires j <= |body| && Finishes(repo, file, body)
    ensures Finishes(repo, file, body[..j])
  {
    hide FlowOf, CanFinish;
  }

  /** The last of these statements to touch the name is `body[j]`. */
  ghost predicate Touches(repo: Repo, file: File, body: seq<Stmt>, j: nat, name: string)
    requires j < |body|
  {
    Finishes(repo, file, body) && AllQuiet(repo, file, body[j + 1..], name)
  }

  lemma AlwaysAt(repo: Repo, file: File, body: seq<Stmt>, j: nat, env: Env, name: string, w: What)
    requires j < |body| && Touches(repo, file, body, j, name)
    ensures Always(repo, file, body, env, name, w) <==> Sure(repo, file, body[..j + 1], env, name, w)
  {
    hide *;
    assert Finishes(repo, file, body) && AllQuiet(repo, file, body[j + 1..], name) by {
      TouchesParts(repo, file, body, j, name);
    }
    AlwaysIff(repo, file, body, env, name, w);
    QuietEnd(repo, file, body, j + 1, env, name, w);
  }

  lemma TouchesParts(repo: Repo, file: File, body: seq<Stmt>, j: nat, name: string)
    requires j < |body| && Touches(repo, file, body, j, name)
    ensures Finishes(repo, file, body) && AllQuiet(repo, file, body[j + 1..], name)
  {
  }

  lemma SureLast(repo: Repo, file: File, body: seq<Stmt>, j: nat, env: Env, name: string, w: What)
    requires j < |body| && !IsFlow(body[j]) && LastOwn(Owns(repo, file, body[j]), name).Some?
    ensures var o := LastOwn(Owns(repo, file, body[j]), name).value;
      Sure(repo, file, body[..j + 1], env, name, w)
      <==> if o.Copies? then Sure(repo, file, body[..j], env, o.from, w) else Fixed(o, w)
  {
    assert body[..j + 1][..j] == body[..j] && body[..j + 1][j] == body[j];
    hide Owns, LastOwn, FlowOf;
  }

  /** After a statement that gives the name another's value, it holds what that other name held. */
  lemma AlwaysAlias(repo: Repo, file: File, body: seq<Stmt>, j: nat, env: Env, name: string, from: string, w: What)
    requires j < |body| && !IsFlow(body[j]) && Touches(repo, file, body, j, name)
    requires LastOwn(Owns(repo, file, body[j]), name) == Some(Copies(name, from))
    ensures Always(repo, file, body, env, name, w) <==> Always(repo, file, body[..j], env, from, w)
  {
    hide *;
    AlwaysAt(repo, file, body, j, env, name, w);
    SureLast(repo, file, body, j, env, name, w);
    TouchesParts(repo, file, body, j, name);
    FinishesUpTo(repo, file, body, j);
    AlwaysIff(repo, file, body[..j], env, from, w);
  }

  lemma AlwaysOwn(repo: Repo, file: File, body: seq<Stmt>, j: nat, env: Env, name: string, o: Own, w: What)
    requires j < |body| && !IsFlow(body[j]) && Touches(repo, file, body, j, name)
    requires LastOwn(Owns(repo, file, body[j]), name) == Some(o) && !o.Copies?
    ensures Always(repo, file, body, env, name, w) <==> Fixed(o, w)
  {
    hide *;
    AlwaysAt(repo, file, body, j, env, name, w);
    SureLast(repo, file, body, j, env, name, w);
  }

  // ---------------------------------------------------------------------------------
  // When the report is right

  /** In every run that reaches the statement the name holds a router with the prefix reported. */
  ghost predicate Right(repo: Repo, file: File, body: seq<Stmt>, i: nat, env: Env, u: Use)
    requires i < |body|
  {
    Always(repo, file, body[..i], env, u.site.base, Router(u.prefix))
  }

  /**
   * For every call and every body: the prefix reported is the live one in every run if and only if that can be read
   * off the statements above (`Sure`: the last to bind the name makes a router with this prefix, or gives it another
   * name's value that is such a router, and so does whatever a block since then may do).
   */
  lemma ReportedIsLive(repo: Repo, file: File, trail: Trail, env: Env, body: seq<Stmt>, i: nat, scope: string, u: Use)
    requires i < |body| && u in OwnUses(body[i], SeenAt(repo, file, trail, body, i), scope)
    ensures u in UsesOfBody(repo, file, body, trail, scope)
    ensures Right(repo, file, body, i, env, u)
      <==> (Finishes(repo, file, body[..i]) ==> Sure(repo, file, body[..i], env, u.site.base, Router(u.prefix)))
  {
    hide *;
    OwnUse(repo, file, trail, body, i, scope, u);
    AlwaysIff(repo, file, body[..i], env, u.site.base, Router(u.prefix));
    assert Right(repo, file, body, i, env, u) <==> Always(repo, file, body[..i], env, u.site.base,
      Router(u.prefix)) by {
      RightIs(repo, file, body, i, env, u);
    }
  }

  lemma RightIs(repo: Repo, file: File, body: seq<Stmt>, i: nat, env: Env, u: Use)
    requires i < |body|
    ensures Right(repo, file, body, i, env, u) <==> Always(repo, file, body[..i], env, u.site.base, Router(u.prefix))
  {
    hide Always;
  }

  /**
   * Where the last statement above to touch the name makes a router, that is the live one in every run; the report is
   * right exactly when a block above left a binding with this very prefix, or none did and nothing below binds the name
   * again or the last binding below has it too.
   */
  lemma RouterAbove(repo: Repo, file: File, trail: Trail, env: Env, body: seq<Stmt>, j: nat, i: nat, scope: string,
      u: Use, prefix: string)
    requires j < i < |body| && u in OwnUses(body[i], SeenAt(repo, file, trail, body, i), scope)
    requires !IsFlow(body[j]) && Touches(repo, file, body[..i], j, u.site.base)
    requires LastOwn(Owns(repo, file, body[j]), u.site.base) == Some(Makes(u.site.base, prefix))
    ensures Always(repo, file, body[..i], env, u.site.base, Router(prefix))
    ensures var left, below := Visible(LeftStmts(repo, file, body[..i]), u.site.base),
      Visible(Hoisted(repo, file, body[i..]), u.site.base);
      Right(repo, file, body, i, env, u)
      <==> if left.Some? then left.value == prefix else below.None? || below.value == prefix
  {
    var name := u.site.base;
    assert body[..i][j] == body[j] && body[..i][..j + 1] == body[..j + 1];
    hide *;
    OwnUse(repo, file, trail, body, i, scope, u);
    Reported(repo, file, trail, body, i, name);
    AboveIs(repo, file, body[..i], j, name, prefix);
    RightIs(repo, file, body, i, env, u);
    AlwaysOwn(repo, file, body[..i], j, env, name, Makes(name, prefix), Router(prefix));
    AlwaysOwn(repo, file, body[..i], j, env, name, Makes(name, prefix), Router(u.prefix));
    FixedMakes(name, prefix, u.prefix);
  }

  lemma FixedMakes(name: string, p: string, q: string)
    ensures Fixed(Makes(name, p), Router(q)) <==> p == q
  {
  }

  /**
   * Where it gives the name another's value, the report is right exactly when that other name surely held such a
   * router.
   */
  lemma AliasAbove(repo: Repo, file: File, trail: Trail, env: Env, body: seq<Stmt>, j: nat, i: nat, scope: string,
      u: Use, from: string)
    requires j < i < |body| && u in OwnUses(body[i], SeenAt(repo, file, trail, body, i), scope)
    requires !IsFlow(body[j]) && Touches(repo, file, body[..i], j, u.site.base)
    requires LastOwn(Owns(repo, file, body[j]), u.site.base) == Some(Copies(u.site.base, from))
    ensures Right(repo, file, body, i, env, u) <==> Always(repo, file, body[..j], env, from, Router(u.prefix))
  {
    var name := u.site.base;
    assert body[..i][j] == body[j] && body[..i][..j] == body[..j];
    hide *;
    RightIs(repo, file, body, i, env, u);
    AlwaysAlias(repo, file, body[..i], j, env, name, from, Router(u.prefix));
  }

  /** Where it binds the name to anything else, or deletes it, the report is wrong in some run. */
  lemma SomethingElseAbove(repo: Repo, file: File, env: Env, body: seq<Stmt>, j: nat, i: nat, u: Use)
    requires j < i < |body| && !IsFlow(body[j]) && Touches(repo, file, body[..i], j, u.site.base)
    requires var o := LastOwn(Owns(repo, file, body[j]), u.site.base); o.Some? && (o.value.Assigns? || o.value.Clears?)
    ensures !Right(repo, file, body, i, env, u)
  {
    var name := u.site.base;
    assert body[..i][j] == body[j];
    hide Touches, Owns, LastOwn, Right, Always;
    RightIs(repo, file, body, i, env, u);
    AlwaysOwn(repo, file, body[..i], j, env, name, LastOwn(Owns(repo, file, body[j]), name).value, Router(u.prefix));
  }

  /**
   * Where a block is the last to touch it, the report is right exactly when every binding the block may leave last
   * makes a router with this prefix and, if the block may leave the name alone, what it held before was one already.
   */
  lemma BlockAbove(repo: Repo, file: File, trail: Trail, env: Env, body: seq<Stmt>, b: nat, i: nat, scope: string,
      u: Use)
    requires b < i < |body| && u in OwnUses(body[i], SeenAt(repo, file, trail, body, i), scope)
    requires IsFlow(body[b]) && Touches(repo, file, body[..i], b, u.site.base)
    ensures var ends := Ends(FlowOf(repo, file, body[b], Through), u.site.base);
      Right(repo, file, body, i, env, u) <==>
        && (forall e | e in ends && e.By? :: Fixed(e.own, Router(u.prefix)))
        && (Untouched in ends ==> Always(repo, file, body[..b], env, u.site.base, Router(u.prefix)))
    ensures var left := Visible(LeftStmts(repo, file, body[..i]), u.site.base); left.Some? ==> left.value == u.prefix
  {
    var name := u.site.base;
    assert body[..i][b] == body[b] && body[..i][..b] == body[..b] && body[..i][..b + 1] == body[..b + 1];
    hide *;
    OwnUse(repo, file, trail, body, i, scope, u);
    Reported(repo, file, trail, body, i, name);
    RightIs(repo, file, body, i, env, u);
    AlwaysAt(repo, file, body[..i], b, env, name, Router(u.prefix));
    SureFlow(repo, file, body, b, env, name, Router(u.prefix));
    TouchesParts(repo, file, body[..i], b, name);
    FinishesUpTo(repo, file, body[..i], b);
    AlwaysIff(repo, file, body[..b], env, name, Router(u.prefix));
  }

  lemma SureFlow(repo: Repo, file: File, body: seq<Stmt>, b: nat, env: Env, name: string, w: What)
    requires b < |body| && IsFlow(body[b])
    ensures var ends := Ends(FlowOf(repo, file, body[b], Through), name);
      Sure(repo, file, body[..b + 1], env, name, w) <==>
        && (forall e | e in ends && e.By? :: Fixed(e.own, w))
        && (Untouched in ends ==> Sure(repo, file, body[..b], env, name, w))
  {
    assert body[..b + 1][..b] == body[..b] && body[..b + 1][b] == body[b];
    hide Owns, LastOwn, FlowOf, Ends, Fixed;
  }

  /** Where nothing above touches it, the name holds what it held on entry. */
  lemma NothingAbove(repo: Repo, file: File, env: Env, body: seq<Stmt>, i: nat, u: Use)
    requires i < |body| && Finishes(repo, file, body[..i]) && AllQuiet(repo, file, body[..i], u.site.base)
    ensures forall w :: Always(repo, file, body[..i], env, u.site.base, w) <==> env(u.site.base) == w
    ensures Right(repo, file, body, i, env, u) <==> env(u.site.base) == Router(u.prefix)
  {
    RightIs(repo, file, body, i, env, u);
    forall w ensures Always(repo, file, body[..i], env, u.site.base, w) <==> env(u.site.base) == w {
      EntryHolds(repo, file, body[..i], env, u.site.base, w);
    }
    hide *;
  }

  lemma EntryHolds(repo: Repo, file: File, body: seq<Stmt>, env: Env, name: string, w: What)
    requires Finishes(repo, file, body) && AllQuiet(repo, file, body, name)
    ensures Always(repo, file, body, env, name, w) <==> env(name) == w
  {
    assert body[0..] == body && body[..0] == [];
    assert Sure(repo, file, [], env, name, w) <==> env(name) == w;
    hide *;
    AlwaysIff(repo, file, body, env, name, w);
    QuietEnd(repo, file, body, 0, env, name, w);
  }

  /**
   * In a function, a name bound only below the call is the function's own and not there yet: the call raises, and the
   * report is wrong, whatever prefix the name has outside.
   */
  lemma OwnNameBelow(repo: Repo, file: File, outer: Env, body: seq<Stmt>, i: nat, u: Use)
    requires i < |body| && Finishes(repo, file, body[..i]) && AllQuiet(repo, file, body[..i], u.site.base)
    requires u.site.base in Locals(repo, file, body)
    ensures var env := FunctionEnv(repo, file, outer, body);
      Always(repo, file, body[..i], env, u.site.base, Absent) && !Right(repo, file, body, i, env, u)
  {
    var env := FunctionEnv(repo, file, outer, body);
    assert env(u.site.base) == Absent;
    hide *;
    NothingAbove(repo, file, env, body, i, u);
  }

  /** Joined to a path, two prefixes differ exactly when they are different, the empty path of a root aside. */
  lemma JoinApart(p: string, q: string, path: string)
    ensures Join(p, path) == Join(q, path) <==> p == q || (path == "" && p in {"", "/"} && q in {"", "/"})
  {
    if p + path == q + path {
      assert |p| == |q|;
      assert p == (p + path)[..|p|] && q == (q + path)[..|q|];
    }
    if p + path == "" || q + path == "" {
      assert p + path == "" ==> p == "" && path == "";
      assert q + path == "" ==> q == "" && path == "";
      assert path == "" ==> p + path == p && q + path == q;
    }
  }

  // ---------------------------------------------------------------------------------
  // The census's bindings and the statements' own

  lemma {:induction false} LastOwnSome(owns: seq<Own>, o: Own)
    requires o in owns
    ensures LastOwn(owns, o.name).Some?
  {
    if owns[|owns| - 1].name != o.name {
      assert o in owns[..|owns| - 1];
      LastOwnSome(owns[..|owns| - 1], o);
    }
  }

  lemma {:induction false} TargetsMake(repo: Repo, file: File, targets: seq<Expr>, value: Expr, name: string,
      prefix: string)
    ensures Makes(name, prefix) in TargetsOwns(repo, file, targets, value)
      <==> Name(name) in targets && IsApiRouter(value) && PrefixOf(repo, file, value) == Ok(prefix)
  {
    if targets != [] {
      TargetsMake(repo, file, targets[1..], value, name, prefix);
      TargetMakes(repo, file, targets[0], value, name, prefix);
      hide TargetOwns, IsApiRouter, PrefixOf;
      assert Name(name) in targets <==> Name(name) == targets[0] || Name(name) in targets[1..];
    }
  }

  lemma TargetMakes(repo: Repo, file: File, target: Expr, value: Expr, name: string, prefix: string)
    ensures Makes(name, prefix) in TargetOwns(repo, file, target, value)
      <==> Name(name) == target && IsApiRouter(value) && PrefixOf(repo, file, value) == Ok(prefix)
  {
    hide PrefixOf, IsApiRouter, NamedIn, Unpacked;
  }

  lemma OwnsMake(repo: Repo, file: File, st: Stmt, name: string, prefix: string)
    requires !IsFlow(st)
    ensures Makes(name, prefix) in Owns(repo, file, st) <==> Binds(repo, file, st, name, prefix)
  {
    hide PrefixOf, IsApiRouter, NamedIn, NamedInAll, Unpacked, TargetsOwns, TargetOwns, AssignsAll, ClearsAll;
    match st
    case Assign(targets, value) =>
      TargetsMake(repo, file, targets, value, name, prefix);
    case AnnAssign(target, annotation, Some(value)) =>
      TargetMakes(repo, file, target, value, name, prefix);
      assert Name(name) in [target] <==> Name(name) == target;
    case Plain(header, binds, clears) =>
      NoRouters(binds, clears, name, prefix);
    case _ =>
  }

  lemma NoRouters(binds: seq<string>, clears: seq<string>, name: string, prefix: string)
    ensures Makes(name, prefix) !in AssignsAll(binds) + ClearsAll(clears)
  {
  }

  /** The statement's own last word on a name, if that is a router, is the binding the census sees. */
  lemma OwnAndSeen(repo: Repo, file: File, st: Stmt, name: string)
    ensures IsFlow(st) ==> Visible(BindingsOf(repo, file, st), name).None?
    ensures !IsFlow(st) && LastOwn(Owns(repo, file, st), name).None? ==> Visible(BindingsOf(repo, file, st), name).None?
    ensures !IsFlow(st) ==>
      match LastOwn(Owns(repo, file, st), name)
      case Some(Makes(_, prefix)) => Visible(BindingsOf(repo, file, st), name) == Some(prefix)
      case _ => true
  {
    if !IsFlow(st) {
      var owns := Owns(repo, file, st);
      OwnBinding(repo, file, st, name);
      LastOwnNames(owns, name);
      hide Owns, LastOwn, BindingsOf, PrefixOf, Visible, IsApiRouter;
      if Visible(BindingsOf(repo, file, st), name).Some? {
        OwnsMake(repo, file, st, name, Visible(BindingsOf(repo, file, st), name).value);
        LastOwnSome(owns, Makes(name, Visible(BindingsOf(repo, file, st), name).value));
      }
      if LastOwn(owns, name).Some? && LastOwn(owns, name).value.Makes? {
        OwnsMake(repo, file, st, name, LastOwn(owns, name).value.prefix);
      }
    }
  }

  lemma {:induction false} QuietSeen(repo: Repo, file: File, body: seq<Stmt>, name: string)
    requires AllQuiet(repo, file, body, name)
    ensures Visible(Hoisted(repo, file, body), name).None?
  {
    if body != [] {
      OwnAndSeen(repo, file, body[0], name);
      assert Quiet(repo, file, body[0], name);
      hide Visible, BindingsOf, Owns, LastOwn, FlowOf, Ends;
      QuietSeen(repo, file, body[1..], name);
      VisibleConcat(BindingsOf(repo, file, body[0]), Hoisted(repo, file, body[1..]), name);
    } else {
      assert Hoisted(repo, file, body) == [];
    }
  }

  lemma AboveIs(repo: Repo, file: File, body: seq<Stmt>, j: nat, name: string, prefix: string)
    requires j < |body| && !IsFlow(body[j]) && Touches(repo, file, body, j, name)
    requires LastOwn(Owns(repo, file, body[j]), name) == Some(Makes(name, prefix))
    ensures Visible(Hoisted(repo, file, body), name) == Some(prefix)
  {
    var here, later := BindingsOf(repo, file, body[j]), Hoisted(repo, file, body[j + 1..]);
    OwnAndSeen(repo, file, body[j], name);
    QuietSeen(repo, file, body[j + 1..], name);
    assert body[j..][0] == body[j] && body[j..][1..] == body[j + 1..];
    assert Hoisted(repo, file, body[j..]) == here + later;
    hide *;
    HoistedPrefix(repo, file, body, j);
    VisibleConcat(here, later, name);
    VisibleConcat(Hoisted(repo, file, body[..j]), here + later, name);
  }
}
