// proxyshop_support/route_census.py: resolving a path expression to a string. `ConstantIndex`
// follows names through assignments, imports, dotted reads, f-strings and `+`, and refuses a name
// that resolves in a cycle. The reference meaning has no cycle check at all: it is the least
// fixpoint of the binding rules, reached by stages.
module RouteConstants {
  import opened Prelude

  datatype File = File(path: string)

  /** `part` of an f-string: text, or a hole; `plain` when it has no conversion but `!s` and no format spec. */
  datatype Part = Text(text: string) | Hole(value: Expr, plain: bool)

  datatype Keyword = Keyword(arg: Option<string>, value: Expr)

  /**
   * The expression shapes the census reads; `node` is the identity of an attribute node, `Listing` a list, tuple
   * or set display (or, in a target, a starred item), `Named` an assignment expression.
   */
  datatype Expr =
    | Str(text: string)
    | OtherConstant
    | Name(id: string)
    | Attr(node: nat, base: Expr, attr: string)
    | FString(parts: seq<Part>)
    | Add(left: Expr, right: Expr)
    | Call(func: Expr, args: seq<Expr>, keywords: seq<Keyword>)
    | Listing(elts: seq<Expr>)
    | Named(id: string, value: Expr)
    | Other(children: seq<Expr>)

  /** `from X import original`, with the first-party file X names, if there is one. */
  datatype Import = Import(target: Option<File>, original: string)

  datatype Module = Module(constants: map<string, Expr>, imported: map<string, Import>)

  /** `moduleFile` is what the package symlinks make of a dotted name. */
  datatype Repo = Repo(modules: map<File, Module>, moduleFile: map<string, File>)

  datatype Unresolvable = Cycle | Unbound | NotFirstParty | NotAString | Computed

  /** `a.b.C` as a dotted string, when every link is a plain name. */
  function Dotted(e: Expr): Option<string> {
    match e
    case Name(id) => Some(id)
    case Attr(_, base, attr) =>
      (match Dotted(base)
       case Some(head) => Some(head + "." + attr)
       case None => None)
    case _ => None
  }

  /** `e` is spelled `names[0].names[1]. ...`, every link a plain name. */
  ghost predicate IsChain(e: Expr, names: seq<string>) {
    && names != []
    && if |names| == 1 then e == Name(names[0])
       else e.Attr? && e.attr == names[|names| - 1] && IsChain(e.base, names[..|names| - 1])
  }

  /** `".".join(names)` */
  function JoinDots(names: seq<string>): string {
    if names == [] then "" else if |names| == 1 then names[0] else names[0] + "." + JoinDots(names[1..])
  }

  lemma {:induction false} JoinDotsLast(names: seq<string>, last: string)
    requires names != []
    ensures JoinDots(names + [last]) == JoinDots(names) + "." + last
  {
    assert (names + [last])[0] == names[0] && (names + [last])[1..] == names[1..] + [last];
    if |names| > 1 {
      JoinDotsLast(names[1..], last);
      assert names[0] + "." + (JoinDots(names[1..]) + "." + last)
          == names[0] + "." + JoinDots(names[1..]) + "." + last;
    } else {
      assert JoinDots([last]) == last;
    }
  }

  lemma {:induction false} ChainReads(e: Expr, names: seq<string>)
    requires IsChain(e, names)
    ensures Dotted(e) == Some(JoinDots(names))
    decreases |names|
  {
    if |names| > 1 {
      var n := |names| - 1;
      ChainReads(e.base, names[..n]);
      JoinDotsLast(names[..n], names[n]);
      assert names[..n] + [names[n]] == names;
    }
  }

  lemma {:induction false} DottedChain(e: Expr) returns (names: seq<string>)
    requires Dotted(e).Some?
    ensures IsChain(e, names)
  {
    match e
    case Name(id) =>
      names := [id];
    case Attr(_, base, attr) =>
      var front := DottedChain(base);
      names := front + [attr];
      assert names[..|front|] == front;
  }

  /** A chain of plain names, and nothing else, reads as its names joined by dots in order. */
  lemma DottedIs(e: Expr, dotted: string)
    ensures Dotted(e) == Some(dotted) <==> exists names :: IsChain(e, names) && dotted == JoinDots(names)
  {
    hide Dotted, IsChain;
    if Dotted(e).Some? {
      var names := DottedChain(e);
      ChainReads(e, names);
    }
    if names :| IsChain(e, names) && dotted == JoinDots(names) {
      ChainReads(e, names);
    }
  }

  /** The file a dotted read `head.attr` is read off. */
  function AttributeFile(repo: Repo, e: Expr): Option<File>
    requires e.Attr?
  {
    match Dotted(e.base)
    case Some(head) => if head in repo.moduleFile then Some(repo.moduleFile[head]) else None
    case None => None
  }

  ghost function Bindings(repo: Repo): set<(File, string)> {
    (set f, x | f in repo.modules && x in repo.modules[f].constants :: (f, x)) +
    (set f, x | f in repo.modules && x in repo.modules[f].imported :: (f, x))
  }

  // ---------------------------------------------------------------------------------
  // The evaluator

  /** `ConstantIndex.value` */
  function Value(repo: Repo, f: File, x: string, seen: set<(File, string)>): Result<string, Unresolvable>
    decreases |Bindings(repo) - seen|, 0
  {
    if (f, x) in seen then Err(Cycle)
    else if f !in repo.modules then Err(NotFirstParty)
    else if x in repo.modules[f].constants then
      Unvisited(repo, f, x, seen);
      Literal(repo, repo.modules[f].constants[x], f, seen + {(f, x)})
    else if x in repo.modules[f].imported then
      Unvisited(repo, f, x, seen);
      var i := repo.modules[f].imported[x];
      if i.target.None? then Err(NotFirstParty) else Value(repo, i.target.value, i.original, seen + {(f, x)})
    else Err(Unbound)
  }

  /** `ConstantIndex.literal` */
  function Literal(repo: Repo, e: Expr, f: File, seen: set<(File, string)>): Result<string, Unresolvable>
    decreases |Bindings(repo) - seen|, 1, e
  {
    match e
    case Str(text) => Ok(text)
    case OtherConstant => Err(NotAString)
    case Name(id) => Value(repo, f, id, seen)
    case Attr(_, base, attr) =>
      (match AttributeFile(repo, e)
       case Some(defining) => Value(repo, defining, attr, seen)
       case None => Err(if Dotted(e).Some? then NotFirstParty else Computed))
    case FString(parts) => LiteralParts(repo, parts, f, seen)
    case Add(left, right) =>
      (match Literal(repo, left, f, seen)
       case Err(u) => Err(u)
       case Ok(a) =>
         match Literal(repo, right, f, seen)
         case Err(u) => Err(u)
         case Ok(b) => Ok(a + b))
    case _ => Err(Computed)
  }

  function LiteralParts(repo: Repo, parts: seq<Part>, f: File, seen: set<(File, string)>): Result<string, Unresolvable>
    decreases |Bindings(repo) - seen|, 1, parts
  {
    if parts == [] then Ok("")
    else
      match LiteralPart(repo, parts[0], f, seen)
      case Err(u) => Err(u)
      case Ok(a) =>
        match LiteralParts(repo, parts[1..], f, seen)
        case Err(u) => Err(u)
        case Ok(b) => Ok(a + b)
  }

  function LiteralPart(repo: Repo, p: Part, f: File, seen: set<(File, string)>): Result<string, Unresolvable>
    decreases |Bindings(repo) - seen|, 1, p
  {
    match p
    case Text(text) => Ok(text)
    case Hole(value, plain) => if plain then Literal(repo, value, f, seen) else Err(Computed)
  }

  lemma Unvisited(repo: Repo, f: File, x: string, seen: set<(File, string)>)
    requires (f, x) !in seen && (f, x) in Bindings(repo)
    ensures |Bindings(repo) - (seen + {(f, x)})| + 1 == |Bindings(repo) - seen|
  {
    assert Bindings(repo) - seen == Bindings(repo) - (seen + {(f, x)}) + {(f, x)};
  }

  // ---------------------------------------------------------------------------------
  // The reference meaning: stage n is what n unfoldings of the binding rules decide

  ghost function MeaningName(repo: Repo, n: nat, f: File, x: string): Option<string>
    decreases n, 0
  {
    if n == 0 || f !in repo.modules then None
    else if x in repo.modules[f].constants then MeaningExpr(repo, n - 1, repo.modules[f].constants[x], f)
    else if x in repo.modules[f].imported && repo.modules[f].imported[x].target.Some? then
      MeaningName(repo, n - 1, repo.modules[f].imported[x].target.value, repo.modules[f].imported[x].original)
    else None
  }

  ghost function MeaningExpr(repo: Repo, n: nat, e: Expr, f: File): Option<string>
    decreases n, 1, e
  {
    match e
    case Str(text) => Some(text)
    case Name(id) => MeaningName(repo, n, f, id)
    case Attr(_, base, attr) =>
      (match AttributeFile(repo, e)
       case Some(defining) => MeaningName(repo, n, defining, attr)
       case None => None)
    case FString(parts) => MeaningParts(repo, n, parts, f)
    case Add(left, right) => Joined(MeaningExpr(repo, n, left, f), MeaningExpr(repo, n, right, f))
    case _ => None
  }

  ghost function MeaningParts(repo: Repo, n: nat, parts: seq<Part>, f: File): Option<string>
    decreases n, 1, parts
  {
    if parts == [] then Some("") else Joined(MeaningPart(repo, n, parts[0], f), MeaningParts(repo, n, parts[1..], f))
  }

  ghost function MeaningPart(repo: Repo, n: nat, p: Part, f: File): Option<string>
    decreases n, 1, p
  {
    match p
    case Text(text) => Some(text)
    case Hole(value, plain) => if plain then MeaningExpr(repo, n, value, f) else None
  }

  ghost function Joined(a: Option<string>, b: Option<string>): Option<string> {
    if a.Some? && b.Some? then Some(a.value + b.value) else None
  }

  /** The name denotes `s` in the least fixpoint. */
  ghost predicate Denotes(repo: Repo, f: File, x: string, s: string) {
    exists n: nat :: MeaningName(repo, n, f, x) == Some(s)
  }

  // ---------------------------------------------------------------------------------
  // Stages only grow

  lemma {:induction false} NameGrows(repo: Repo, n: nat, f: File, x: string)
    requires MeaningName(repo, n, f, x).Some?
    ensures MeaningName(repo, n + 1, f, x) == MeaningName(repo, n, f, x)
    decreases n, 0
  {
    var m := repo.modules[f];
    if x in m.constants {
      ExprGrows(repo, n - 1, m.constants[x], f);
    } else {
      NameGrows(repo, n - 1, m.imported[x].target.value, m.imported[x].original);
    }
  }

  lemma {:induction false} ExprGrows(repo: Repo, n: nat, e: Expr, f: File)
    requires MeaningExpr(repo, n, e, f).Some?
    ensures MeaningExpr(repo, n + 1, e, f) == MeaningExpr(repo, n, e, f)
    decreases n, 1, e
  {
    match e
    case Str(_) =>
    case Name(id) => NameGrows(repo, n, f, id);
    case Attr(_, base, attr) => NameGrows(repo, n, AttributeFile(repo, e).value, attr);
    case FString(parts) => PartsGrow(repo, n, parts, f);
    case Add(left, right) =>
      ExprGrows(repo, n, left, f);
      ExprGrows(repo, n, right, f);
  }

  lemma {:induction false} PartGrows(repo: Repo, n: nat, p: Part, f: File)
    requires MeaningPart(repo, n, p, f).Some?
    ensures MeaningPart(repo, n + 1, p, f) == MeaningPart(repo, n, p, f)
    decreases n, 1, p
  {
    if p.Hole? {
      ExprGrows(repo, n, p.value, f);
    }
  }

  lemma {:induction false} PartsGrow(repo: Repo, n: nat, parts: seq<Part>, f: File)
    requires MeaningParts(repo, n, parts, f).Some?
    ensures MeaningParts(repo, n + 1, parts, f) == MeaningParts(repo, n, parts, f)
    decreases n, 1, parts
  {
    if parts != [] {
      PartGrows(repo, n, parts[0], f);
      PartsGrow(repo, n, parts[1..], f);
    }
  }

  // ---------------------------------------------------------------------------------
  // Sound: what the evaluator returns is decided within as many stages as names are left

  lemma {:induction false} SoundName(repo: Repo, f: File, x: string, seen: set<(File, string)>)
    requires Value(repo, f, x, seen).Ok?
    ensures MeaningName(repo, |Bindings(repo) - seen|, f, x) == Some(Value(repo, f, x, seen).value)
    decreases |Bindings(repo) - seen|, 0
  {
    Unvisited(repo, f, x, seen);
    var m := repo.modules[f];
    if x in m.constants {
      SoundExpr(repo, m.constants[x], f, seen + {(f, x)});
    } else {
      SoundName(repo, m.imported[x].target.value, m.imported[x].original, seen + {(f, x)});
    }
  }

  lemma {:induction false} SoundExpr(repo: Repo, e: Expr, f: File, seen: set<(File, string)>)
    requires Literal(repo, e, f, seen).Ok?
    ensures MeaningExpr(repo, |Bindings(repo) - seen|, e, f) == Some(Literal(repo, e, f, seen).value)
    decreases |Bindings(repo) - seen|, 1, e
  {
    match e
    case Str(_) =>
    case Name(id) => SoundName(repo, f, id, seen);
    case Attr(_, base, attr) => SoundName(repo, AttributeFile(repo, e).value, attr, seen);
    case FString(parts) => SoundParts(repo, parts, f, seen);
    case Add(left, right) =>
      SoundExpr(repo, left, f, seen);
      SoundExpr(repo, right, f, seen);
  }

  lemma {:induction false} SoundPart(repo: Repo, p: Part, f: File, seen: set<(File, string)>)
    requires LiteralPart(repo, p, f, seen).Ok?
    ensures MeaningPart(repo, |Bindings(repo) - seen|, p, f) == Some(LiteralPart(repo, p, f, seen).value)
    decreases |Bindings(repo) - seen|, 1, p
  {
    if p.Hole? {
      SoundExpr(repo, p.value, f, seen);
    }
  }

  lemma {:induction false} SoundParts(repo: Repo, parts: seq<Part>, f: File, seen: set<(File, string)>)
    requires LiteralParts(repo, parts, f, seen).Ok?
    ensures MeaningParts(repo, |Bindings(repo) - seen|, parts, f) == Some(LiteralParts(repo, parts, f, seen).value)
    decreases |Bindings(repo) - seen|, 1, parts
  {
    if parts != [] {
      SoundPart(repo, parts[0], f, seen);
      SoundParts(repo, parts[1..], f, seen);
    }
  }

  // ---------------------------------------------------------------------------------
  // Complete: the path-local `_seen` holds only names that need MORE stages than what is being read

  ghost predicate Undecided(repo: Repo, n: nat, seen: set<(File, string)>) {
    forall p | p in seen :: MeaningName(repo, n, p.0, p.1).None?
  }

  lemma UndecidedBefore(repo: Repo, n: nat, seen: set<(File, string)>)
    requires n > 0 && Undecided(repo, n, seen)
    ensures Undecided(repo, n - 1, seen)
  {
    forall p | p in seen ensures MeaningName(repo, n - 1, p.0, p.1).None? {
      if MeaningName(repo, n - 1, p.0, p.1).Some? {
        NameGrows(repo, n - 1, p.0, p.1);
      }
    }
  }

  lemma {:induction false} CompleteName(repo: Repo, n: nat, f: File, x: string, seen: set<(File, string)>)
    requires MeaningName(repo, n, f, x).Some? && Undecided(repo, n, seen)
    ensures Value(repo, f, x, seen) == Ok(MeaningName(repo, n, f, x).value)
    decreases n, 0
  {
    UndecidedBefore(repo, n, seen);
    if MeaningName(repo, n - 1, f, x).Some? {
      NameGrows(repo, n - 1, f, x);
      CompleteName(repo, n - 1, f, x, seen);
    } else {
      var m := repo.modules[f];
      if x in m.constants {
        CompleteExpr(repo, n - 1, m.constants[x], f, seen + {(f, x)});
      } else {
        CompleteName(repo, n - 1, m.imported[x].target.value, m.imported[x].original, seen + {(f, x)});
      }
    }
  }

  lemma {:induction false} CompleteExpr(repo: Repo, n: nat, e: Expr, f: File, seen: set<(File, string)>)
    requires MeaningExpr(repo, n, e, f).Some? && Undecided(repo, n, seen)
    ensures Literal(repo, e, f, seen) == Ok(MeaningExpr(repo, n, e, f).value)
    decreases n, 1, e
  {
    match e
    case Str(_) =>
    case Name(id) => CompleteName(repo, n, f, id, seen);
    case Attr(_, base, attr) => CompleteName(repo, n, AttributeFile(repo, e).value, attr, seen);
    case FString(parts) => CompleteParts(repo, n, parts, f, seen);
    case Add(left, right) =>
      CompleteExpr(repo, n, left, f, seen);
      CompleteExpr(repo, n, right, f, seen);
  }

  lemma {:induction false} CompletePart(repo: Repo, n: nat, p: Part, f: File, seen: set<(File, string)>)
    requires MeaningPart(repo, n, p, f).Some? && Undecided(repo, n, seen)
    ensures LiteralPart(repo, p, f, seen) == Ok(MeaningPart(repo, n, p, f).value)
    decreases n, 1, p
  {
    if p.Hole? {
      CompleteExpr(repo, n, p.value, f, seen);
    }
  }

  lemma {:induction false} CompleteParts(repo: Repo, n: nat, parts: seq<Part>, f: File, seen: set<(File, string)>)
    requires MeaningParts(repo, n, parts, f).Some? && Undecided(repo, n, seen)
    ensures LiteralParts(repo, parts, f, seen) == Ok(MeaningParts(repo, n, parts, f).value)
    decreases n, 1, parts
  {
    if parts != [] {
      CompletePart(repo, n, parts[0], f, seen);
      CompleteParts(repo, n, parts[1..], f, seen);
    }
  }

  // ---------------------------------------------------------------------------------
  // Adequacy

  /** `value` answers s exactly when the name denotes s. */
  lemma EvaluatorAdequate(repo: Repo, f: File, x: string, s: string)
    ensures Value(repo, f, x, {}) == Ok(s) <==> Denotes(repo, f, x, s)
  {
    if Value(repo, f, x, {}) == Ok(s) {
      SoundName(repo, f, x, {});
    }
    if Denotes(repo, f, x, s) {
      var n: nat :| MeaningName(repo, n, f, x) == Some(s);
      CompleteName(repo, n, f, x, {});
    }
  }

  ghost predicate ExprDenotes(repo: Repo, e: Expr, f: File, s: string) {
    exists n: nat :: MeaningExpr(repo, n, e, f) == Some(s)
  }

  /** The same of an expression: a route's path, a router's prefix. */
  lemma LiteralAdequate(repo: Repo, e: Expr, f: File, s: string)
    ensures Literal(repo, e, f, {}) == Ok(s) <==> ExprDenotes(repo, e, f, s)
  {
    if Literal(repo, e, f, {}) == Ok(s) {
      SoundExpr(repo, e, f, {});
    }
    if ExprDenotes(repo, e, f, s) {
      var n: nat :| MeaningExpr(repo, n, e, f) == Some(s);
      CompleteExpr(repo, n, e, f, {});
    }
  }

  /** The cycle check refuses a name only when it denotes nothing, however often it is used. */
  lemma CycleCheckNeverSpurious(repo: Repo, f: File, x: string)
    ensures Value(repo, f, x, {}).Err? <==> forall s :: !Denotes(repo, f, x, s)
  {
    forall s ensures Value(repo, f, x, {}) == Ok(s) <==> Denotes(repo, f, x, s) {
      EvaluatorAdequate(repo, f, x, s);
    }
    if Value(repo, f, x, {}).Ok? {
      assert Denotes(repo, f, x, Value(repo, f, x, {}).value);
    }
  }

  /** A name that is used twice in one expression is still followed twice: `_seen` is path-local. */
  lemma UsedTwice(repo: Repo, f: File, x: string, y: string, s: string)
    requires f in repo.modules && x in repo.modules[f].constants
    requires repo.modules[f].constants[x] == Add(Name(y), Name(y)) && Denotes(repo, f, y, s)
    ensures Value(repo, f, x, {}) == Ok(s + s)
  {
    var n: nat :| MeaningName(repo, n, f, y) == Some(s);
    assert MeaningExpr(repo, n, Name(y), f) == Some(s);
    assert MeaningExpr(repo, n, Add(Name(y), Name(y)), f) == Some(s + s);
    assert MeaningName(repo, n + 1, f, x) == Some(s + s);
    EvaluatorAdequate(repo, f, x, s + s);
  }

  /** The stages are exhausted by as many unfoldings as there are bindings. */
  lemma StagesStop(repo: Repo, f: File, x: string, s: string)
    ensures Denotes(repo, f, x, s) <==> MeaningName(repo, |Bindings(repo)|, f, x) == Some(s)
  {
    EvaluatorAdequate(repo, f, x, s);
    if Denotes(repo, f, x, s) {
      SoundName(repo, f, x, {});
      assert Bindings(repo) - {} == Bindings(repo);
    }
  }
}
