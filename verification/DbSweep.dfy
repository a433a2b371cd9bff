// The sweep of scripts/db_reclaim.py against a cluster that other sessions keep changing.
module DbSweep {
  import opened Prelude
  import opened Decimals
  import opened DbReclaim
  import opened WorkerNames

  // ---------------------------------------------------------------------------------
  // `classify`

  const NON_WORKER_DATABASES: set<string> := { "postgres", "proxyshop_template", "template0", "template1" }

  datatype Rules = Rules(protect: set<nat>, leased: Option<set<nat>>, includeScratch: bool)

  datatype Verdict = Protected | WouldDrop | Dropped

  datatype Class = Spared(index: Option<nat>) | Considered(index: Option<nat>)

  function Classify(name: string, rules: Rules): Class {
    if name in NON_WORKER_DATABASES then Spared(None)
    else if IsMigrationCheck(name) then if rules.includeScratch then Considered(None) else Spared(None)
    else
      match WorkerIndex(name)
      case None => Spared(None)
      case Some(index) =>
        if index == 0 || index in rules.protect then Spared(Some(index))
        else if InScratchBand(index) then
          if rules.includeScratch then Considered(Some(index)) else Spared(Some(index))
        else if rules.leased.Some? && index in rules.leased.value then Spared(Some(index))
        else Considered(Some(index))
  }

  /**
   * Nothing keeps this worker's database: it is not worker 0, not protected, and not leased, or else is opted-in
   * scratch.
   */
  predicate Abandoned(worker: nat, rules: Rules) {
    && worker != 0 && worker !in rules.protect
    && if InScratchBand(worker) then rules.includeScratch else rules.leased.None? || worker !in rules.leased.value
  }

  /**
   * What may be dropped at all: a per-test scratch name that was opted in, or a worker's own database when
   * nothing protects it.
   */
  ghost predicate MayDrop(name: string, rules: Rules) {
    || (IsMigrationCheck(name) && rules.includeScratch)
    || (exists n: nat :: WorkerIndex(name) == Some(n) && Abandoned(n, rules))
  }

  lemma ClassifyIff(name: string, rules: Rules)
    ensures Classify(name, rules).Considered? <==> MayDrop(name, rules)
  {
    NamesApart(name);
  }

  /** No name is read both ways, and none of the databases that are not workers' is read either way. */
  lemma NamesApart(name: string)
    ensures !(IsMigrationCheck(name) && WorkerIndex(name).Some?)
    ensures name in NON_WORKER_DATABASES ==> !IsMigrationCheck(name) && WorkerIndex(name).None?
  {
    if name in NON_WORKER_DATABASES {
      assert PREFIX[10] == 'w' && PREFIX[0] == 'p' && PREFIX[1] == 'r';
    } else if IsMigrationCheck(name) {
      var rest := AfterPrefix(name).value;
      assert rest[DigitRun(rest)..][0] == MARKER[0] == '_';
    }
  }

  /** A worker's database, by worker: protected, leased and scratch slots, and worker 0, are never considered. */
  lemma WorkerDatabase(worker: nat, rules: Rules)
    ensures Classify(DatabaseName(worker), rules).Considered? <==> Abandoned(worker, rules)
  {
    DatabaseNameIndex(worker);
    ClassifyIff(DatabaseName(worker), rules);
  }

  lemma DigitRunIs(digits: string, tail: string)
    requires AllDigits(digits) && tail != "" && !IsDigit(tail[0])
    ensures DigitRun(digits + tail) == |digits|
  {
    var s, n := digits + tail, DigitRun(digits + tail);
    assert forall i | 0 <= i < |digits| :: s[i] == digits[i];
    assert s[|digits|] == tail[0];
  }

  lemma ScratchName(worker: nat, hex: string)
    requires |hex| == 8 && forall i | 0 <= i < 8 :: IsHex(hex[i])
    ensures IsMigrationCheck(DatabaseName(worker) + MARKER + hex)
  {
    var digits := Decimal(worker);
    var name, rest := DatabaseName(worker) + MARKER + hex, digits + (MARKER + hex);
    assert name[|PREFIX|..] == rest && PREFIX <= name;
    assert rest[|rest| - 1] == hex[7];
    DigitRunIs(digits, MARKER + hex);
    hide Decimal, DigitRun, DatabaseName;
    ScratchRest(name, digits, hex);
  }

  lemma ScratchRest(name: string, digits: string, hex: string)
    requires digits != "" && DigitRun(digits + (MARKER + hex)) == |digits|
    requires AfterPrefix(name) == Some(digits + (MARKER + hex))
    requires |hex| == 8 && forall i | 0 <= i < 8 :: IsHex(hex[i])
    ensures IsMigrationCheck(name)
  {
    hide *;
    AfterDigits(digits, hex);
    ReadsAsScratch(name, digits + (MARKER + hex), |digits|);
  }

  lemma ReadsAsScratch(name: string, rest: string, n: nat)
    requires AfterPrefix(name) == Some(rest) && DigitRun(rest) == n && n > 0
    requires MARKER <= rest[n..] && |rest| == n + |MARKER| + 8 && forall i | |rest| - 8 <= i < |rest| :: IsHex(rest[i])
    ensures IsMigrationCheck(name)
  {
    hide DigitRun, AfterPrefix, IsHex, MARKER;
  }

  lemma AfterDigits(digits: string, hex: string)
    requires |hex| == 8 && forall i | 0 <= i < 8 :: IsHex(hex[i])
    ensures var rest := digits + (MARKER + hex);
      && MARKER <= rest[|digits|..] && |rest| == |digits| + |MARKER| + 8
      && forall i | |rest| - 8 <= i < |rest| :: IsHex(rest[i])
  {
    hide IsHex, MARKER;
    var rest := digits + (MARKER + hex);
    assert rest[|digits|..] == MARKER + hex;
    forall i | |rest| - 8 <= i < |rest| ensures IsHex(rest[i]) {
      assert rest[i] == hex[i - (|rest| - 8)];
    }
  }

  /**
   * The protect list and the leases do not reach per-test scratch names: with scratch opted in, one that
   * carries a protected worker's index, worker 0's included, is considered all the same.
   */
  lemma ScratchIgnoresProtection(worker: nat, hex: string, rules: Rules)
    requires |hex| == 8 && forall i | 0 <= i < 8 :: IsHex(hex[i])
    ensures Classify(DatabaseName(worker) + MARKER + hex, rules).Considered? <==> rules.includeScratch
  {
    ScratchName(worker, hex);
    NamesApart(DatabaseName(worker) + MARKER + hex);
    hide IsMigrationCheck, WorkerIndex;
  }

  // ---------------------------------------------------------------------------------
  // The cluster

  datatype Info = Info(size: nat, template: bool)

  datatype Cluster = Cluster(databases: map<string, Info>, backends: map<int, string>)

  /** What other sessions do. */
  datatype Action = Connect(pid: int, name: string) | Disconnect(pid: int) | Create(name: string, info: Info)
      | Remove(name: string)

  function Backends(c: Cluster, name: string): set<int> {
    set pid | pid in c.backends && c.backends[pid] == name
  }

  /** Postgres would drop it: it is there and nobody is connected. */
  predicate Droppable(c: Cluster, name: string) {
    name in c.databases && Backends(c, name) == {}
  }

  function Acted(c: Cluster, a: Action): Cluster {
    match a
    case Connect(pid, name) =>
      if name in c.databases && pid !in c.backends then c.(backends := c.backends[pid := name]) else c
    case Disconnect(pid) => c.(backends := c.backends - {pid})
    case Create(name, info) => if name in c.databases then c else c.(databases := c.databases[name := info])
    case Remove(name) => if Backends(c, name) == {} then c.(databases := c.databases - {name}) else c
  }

  function AllActed(c: Cluster, actions: seq<Action>): Cluster {
    if actions == [] then c else Acted(AllActed(c, actions[..|actions| - 1]), actions[|actions| - 1])
  }

  /** What the cluster has been through: stretches of other sessions' work, and this script's drops. */
  datatype Happening = Elsewhere(actions: seq<Action>) | DroppedHere(name: string)

  function Happened(c: Cluster, h: Happening): Cluster {
    match h
    case Elsewhere(actions) => AllActed(c, actions)
    case DroppedHere(name) => c.(databases := c.databases - {name})
  }

  function Replay(start: Cluster, history: seq<Happening>): Cluster {
    if history == [] then start else Happened(Replay(start, history[..|history| - 1]), history[|history| - 1])
  }

  lemma ReplayMore(start: Cluster, history: seq<Happening>, h: Happening)
    ensures Replay(start, history + [h]) == Happened(Replay(start, history), h)
  {
    assert (history + [h])[..|history|] == history;
  }

  /** `like 'proxyshop_w%'`, where `_` is itself a wildcard. */
  predicate Listed(name: string, info: Info) {
    |name| >= |PREFIX| && name[..9] == PREFIX[..9] && name[10] == 'w' && !info.template
  }

  /** SQL's LIKE: `%` stands for anything, `_` for any one character. */
  predicate Like(pattern: string, s: string)
    decreases |pattern| + |s|
  {
    if pattern == "" then s == ""
    else if pattern[0] == '%' then Like(pattern[1..], s) || (s != "" && Like(pattern, s[1..]))
    else s != "" && (pattern[0] == '_' || pattern[0] == s[0]) && Like(pattern[1..], s[1..])
  }

  lemma {:induction false} LikeAnything(s: string)
    ensures Like("%", s)
  {
    if s == "" {
      assert "%"[1..] == "";
    } else {
      LikeAnything(s[1..]);
    }
  }

  lemma {:induction false} LikePrefix(front: string, s: string)
    requires '%' !in front
    ensures Like(front + "%", s) <==>
      |front| <= |s| && forall i | 0 <= i < |front| :: front[i] == '_' || front[i] == s[i]
  {
    if front == "" {
      assert front + "%" == "%";
      LikeAnything(s);
    } else if s != "" {
      assert (front + "%")[0] == front[0] && (front + "%")[1..] == front[1..] + "%";
      LikePrefix(front[1..], s[1..]);
      forall i | 1 <= i < |front| && |front| <= |s| ensures front[1..][i - 1] == front[i] && s[1..][i - 1] == s[i] {
      }
    }
  }

  /** The statement's own pattern, under which the underscore of "proxyshop_w" matches any character. */
  lemma ListedIsLike(name: string, info: Info)
    ensures Listed(name, info) <==> Like("proxyshop_w%", name) && !info.template
  {
    LikePrefix(PREFIX, name);
    assert PREFIX + "%" == "proxyshop_w%";
    assert PREFIX[9] == '_' && PREFIX[10] == 'w' && forall i | 0 <= i < 9 :: PREFIX[i] != '_';
    hide Like;
    if |PREFIX| <= |name| {
      assert name[..9] == PREFIX[..9] <==> forall i | 0 <= i < 9 :: name[..9][i] == PREFIX[..9][i];
    }
  }

  datatype Row = Row(name: string, size: nat)

  /** `order by pg_database_size(datname) desc, datname` */
  predicate Before(a: Row, b: Row) {
    a.size > b.size || (a.size == b.size && StrLeq(a.name, b.name))
  }

  ghost predicate Sorted(rows: seq<Row>) {
    forall i, j | 0 <= i < j < |rows| :: Before(rows[i], rows[j])
  }

  function Insert(rows: seq<Row>, r: Row): seq<Row> {
    if rows == [] || Before(r, rows[0]) then [r] + rows else [rows[0]] + Insert(rows[1..], r)
  }

  lemma {:induction false} InsertKeeps(rows: seq<Row>, r: Row)
    requires Sorted(rows)
    ensures Sorted(Insert(rows, r))
    ensures multiset(Insert(rows, r)) == multiset(rows) + multiset{r}
  {
    if rows != [] {
      assert rows == [rows[0]] + rows[1..];
      if Before(r, rows[0]) {
        forall j | 0 < j < |rows| ensures Before(r, rows[j]) {
          BeforeTransitive(r, rows[0], rows[j]);
        }
      } else {
        InsertKeeps(rows[1..], r);
        var tail := Insert(rows[1..], r);
        forall x | x in tail ensures Before(rows[0], x) {
          assert x in multiset(tail);
          if x == r {
            StrLeqTotal(rows[0].name, r.name);
          } else {
            assert x in rows[1..];
          }
        }
      }
    }
  }

  lemma BeforeTransitive(a: Row, b: Row, c: Row)
    requires Before(a, b) && Before(b, c)
    ensures Before(a, c)
  {
    if a.size == b.size == c.size {
      StrLeqTransitive(a.name, b.name, c.name);
    }
  }

  /** Every listed database once, with its size: the largest first, and of two as large the smaller name. */
  ghost predicate IsListing(c: Cluster, rows: seq<Row>) {
    && (forall i, j | 0 <= i < j < |rows| ::
          rows[i].size > rows[j].size || (rows[i].size == rows[j].size && StrLeq(rows[i].name, rows[j].name)))
    && (forall i, j | 0 <= i < j < |rows| :: rows[i].name != rows[j].name)
    && (forall r | r in rows ::
          && r.name in c.databases && Listed(r.name, c.databases[r.name]) && r.size == c.databases[r.name].size)
    && (forall name | name in c.databases && Listed(name, c.databases[name]) :: exists r :: r in rows && r.name == name)
  }

  // ---------------------------------------------------------------------------------
  // History

  function DropsIn(history: seq<Happening>): seq<string> {
    if history == [] then []
    else
      DropsIn(history[..|history| - 1]) +
      match history[|history| - 1]
      case DroppedHere(name) => [name]
      case Elsewhere(_) => []
  }

  function Others(history: seq<Happening>): seq<seq<Action>> {
    if history == [] then []
    else
      Others(history[..|history| - 1]) +
      match history[|history| - 1]
      case DroppedHere(_) => []
      case Elsewhere(actions) => [actions]
  }

  /**
   * At the moment of the i-th happening, if it is a drop, the database was there, nobody was on it, and the
   * rules allow it.
   */
  ghost predicate SafeAt(start: Cluster, history: seq<Happening>, i: nat, rules: Rules)
    requires i < |history|
  {
    history[i].DroppedHere? ==>
      var c, name := Replay(start, history[..i]), history[i].name;
      Droppable(c, name) && MayDrop(name, rules)
  }

  ghost predicate SafeFrom(start: Cluster, history: seq<Happening>, from: nat, rules: Rules) {
    forall i | from <= i < |history| :: SafeAt(start, history, i, rules)
  }

  lemma SafeMore(start: Cluster, history: seq<Happening>, from: nat, rules: Rules, h: Happening)
    requires SafeFrom(start, history, from, rules)
    requires h.DroppedHere? ==> var c := Replay(start, history);
      Droppable(c, h.name) && MayDrop(h.name, rules)
    ensures SafeFrom(start, history + [h], from, rules)
  {
    var all := history + [h];
    forall i | from <= i < |all| ensures SafeAt(start, all, i, rules) {
      if i < |history| {
        assert SafeAt(start, history, i, rules);
        assert all[..i] == history[..i];
      } else {
        assert all[..i] == history;
      }
    }
  }

  lemma HistoryMore(history: seq<Happening>, h: Happening)
    ensures DropsIn(history + [h]) == DropsIn(history) + if h.DroppedHere? then [h.name] else []
    ensures Others(history + [h]) == Others(history) + if h.Elsewhere? then [h.actions] else []
  {
    assert (history + [h])[..|history|] == history;
  }

  function Moves(environment: nat -> seq<Action>, n: nat): seq<seq<Action>> {
    if n == 0 then [] else Moves(environment, n - 1) + [environment(n - 1)]
  }

  lemma MovesMore(environment: nat -> seq<Action>, n: nat)
    ensures Moves(environment, n + 1) == Moves(environment, n) + [environment(n)]
  {
  }

  /** One connection to the cluster. Before each of its statements, other sessions have their turn. */
  class Connection {
    const start: Cluster
    const environment: nat -> seq<Action>
    var cluster: Cluster
    var statements: nat
    var history: seq<Happening>

    ghost predicate Valid()
      reads this
    {
      cluster == Replay(start, history) && Others(history) == Moves(environment, statements)
    }

    constructor (start: Cluster, environment: nat -> seq<Action>)
      ensures Valid() && this.start == start && this.environment == environment
      ensures cluster == start && statements == 0 && history == []
    {
      this.start, this.environment := start, environment;
      cluster, statements, history := start, 0, [];
    }

    method Statement()
      requires Valid()
      modifies this
      ensures Valid() && statements == old(statements) + 1
      ensures history == old(history) + [Elsewhere(environment(old(statements)))]
    {
      var actions := environment(statements);
      ReplayMore(start, history, Elsewhere(actions));
      HistoryMore(history, Elsewhere(actions));
      MovesMore(environment, statements);
      hide Moves, Others, Replay, AllActed;
      cluster := AllActed(cluster, actions);
      history := history + [Elsewhere(actions)];
      statements := statements + 1;
    }

    method LiveBackends(name: string) returns (pids: set<int>)
      requires Valid()
      modifies this
      ensures Valid() && statements == old(statements) + 1
      ensures history == old(history) + [Elsewhere(environment(old(statements)))]
      ensures pids == Backends(cluster, name)
    {
      Statement();
      pids := Backends(cluster, name);
    }

    method ListWorkerDatabases() returns (rows: seq<Row>)
      requires Valid()
      modifies this
      ensures Valid() && statements == old(statements) + 1
      ensures history == old(history) + [Elsewhere(environment(old(statements)))]
      ensures IsListing(cluster, rows)
    {
      Statement();
      rows := Rows(cluster);
    }

    /** A plain DROP DATABASE: Postgres refuses it while anyone is connected. */
    method Drop(name: string) returns (r: Result<bool, Error>)
      requires Valid()
      modifies this
      ensures Valid()
      ensures r.Err? <==> WorkerIndex(name).None? && !IsMigrationCheck(name)
      ensures r.Err? ==> history == old(history) && statements == old(statements)
      ensures r.Ok? ==>
        var turn := old(history) + [Elsewhere(environment(old(statements)))];
        var c := Replay(start, turn);
        && statements == old(statements) + 1
        && r.value == Droppable(c, name)
        && history == if r.value then turn + [DroppedHere(name)] else turn
    {
      if WorkerIndex(name).None? && !IsMigrationCheck(name) {
        return Err(UnknownShape(name));
      }
      Statement();
      if !Droppable(cluster, name) {
        return Ok(false);
      }
      ReplayMore(start, history, DroppedHere(name));
      HistoryMore(history, DroppedHere(name));
      cluster := cluster.(databases := cluster.databases - {name});
      history := history + [DroppedHere(name)];
      return Ok(true);
    }
  }

  method Rows(c: Cluster) returns (rows: seq<Row>)
    ensures IsListing(c, rows)
  {
    var names := set name | name in c.databases && Listed(name, c.databases[name]);
    rows := [];
    var rest := names;
    while rest != {}
      invariant rest <= names && Sorted(rows)
      invariant forall i, j | 0 <= i < j < |rows| :: rows[i].name != rows[j].name
      invariant forall r | r in rows :: r.name in names - rest && r.size == c.databases[r.name].size
      invariant forall name | name in names - rest :: Row(name, c.databases[name].size) in rows
      decreases rest
    {
      var name :| name in rest;
      var r := Row(name, c.databases[name].size);
      InsertKeeps(rows, r);
      InsertMembers(rows, r);
      rows := Insert(rows, r);
      rest := rest - {name};
    }
  }

  lemma InsertMembers(rows: seq<Row>, r: Row)
    requires forall x | x in rows :: x.name != r.name
    requires forall i, j | 0 <= i < j < |rows| :: rows[i].name != rows[j].name
    ensures forall x :: x in Insert(rows, r) <==> x in rows || x == r
    ensures var all := Insert(rows, r); forall i, j | 0 <= i < j < |all| :: all[i].name != all[j].name
  {
    if rows != [] && !Before(r, rows[0]) {
      InsertMembers(rows[1..], r);
      assert rows == [rows[0]] + rows[1..];
      var tail := Insert(rows[1..], r);
      forall j | 0 <= j < |tail| ensures rows[0].name != tail[j].name {
        assert tail[j] in tail;
      }
    }
  }

  // ---------------------------------------------------------------------------------
  // `sweep`

  /** `backends`: what the last liveness check saw. `refused`: the drop was attempted and did not happen. */
  datatype Candidate = Candidate(name: string, index: Option<nat>, size: nat, verdict: Verdict, backends: set<int>,
      refused: bool)

  function DroppedNames(results: seq<Candidate>): seq<string> {
    if results == [] then []
    else
      DroppedNames(results[..|results| - 1]) +
      if results[|results| - 1].verdict == Dropped then [results[|results| - 1].name] else []
  }

  /** The one final verdict a database gets, from the rules and from what was seen of it. */
  predicate Judged(c: Candidate, row: Row, rules: Rules, apply: bool) {
    && c.name == row.name && c.size == row.size
    && c.index == Classify(row.name, rules).index
    && c.verdict ==
      if Classify(row.name, rules).Spared? || c.backends != {} || c.refused then Protected
      else if apply then Dropped
      else WouldDrop
  }

  ghost predicate AllJudged(results: seq<Candidate>, rows: seq<Row>, rules: Rules, apply: bool) {
    |results| == |rows| && forall i | 0 <= i < |rows| :: Judged(results[i], rows[i], rules, apply)
  }

  lemma DroppedMore(results: seq<Candidate>, c: Candidate)
    ensures DroppedNames(results + [c]) == DroppedNames(results) + if c.verdict == Dropped then [c.name] else []
  {
    assert (results + [c])[..|results|] == results;
  }

  lemma DropsElsewhere(history: seq<Happening>, actions: seq<Action>, start: Cluster, from: nat, rules: Rules)
    requires SafeFrom(start, history, from, rules)
    ensures DropsIn(history + [Elsewhere(actions)]) == DropsIn(history)
    ensures SafeFrom(start, history + [Elsewhere(actions)], from, rules)
  {
    HistoryMore(history, Elsewhere(actions));
    SafeMore(start, history, from, rules, Elsewhere(actions));
  }

  /** What other sessions do before the n-th statement. */
  function Turn(connection: Connection, n: nat): Happening {
    Elsewhere(connection.environment(n))
  }

  /** Nobody is on the database after this history. */
  ghost predicate Idle(connection: Connection, history: seq<Happening>, name: string) {
    Backends(Replay(connection.start, history), name) == {}
  }

  /**
   * What the verdict says is what was there at the statement it rests on, the last one made for this candidate:
   * backends are those connected then, a would-drop was idle, a drop was possible and follows, and a refused
   * drop was of a database gone or in use.
   */
  ghost predicate Observed(start: Cluster, history: seq<Happening>, moment: nat, c: Candidate, rules: Rules) {
    && moment <= |history|
    && (Classify(c.name, rules).Considered? ==> moment > 0 && history[moment - 1].Elsewhere?)
    && var there := Replay(start, history[..moment]);
    && (c.backends != {} ==> c.backends == Backends(there, c.name))
    && (c.verdict == WouldDrop ==> Backends(there, c.name) == {})
    && (c.verdict == Dropped ==>
          Droppable(there, c.name) && moment < |history| && history[moment] == DroppedHere(c.name))
    && (c.refused ==> !Droppable(there, c.name))
  }

  /** A verdict that rests on the last statement made. */
  lemma ObservedNow(start: Cluster, history: seq<Happening>, c: Candidate, rules: Rules)
    requires history != [] && history[|history| - 1].Elsewhere? && c.verdict != Dropped
    requires c.backends != {} ==> c.backends == Backends(Replay(start, history), c.name)
    requires c.verdict == WouldDrop ==> Backends(Replay(start, history), c.name) == {}
    requires c.refused ==> !Droppable(Replay(start, history), c.name)
    ensures Observed(start, history, |history|, c, rules)
  {
    assert history[..|history|] == history;
  }

  lemma ObservedDrop(start: Cluster, history: seq<Happening>, c: Candidate, rules: Rules)
    requires history != [] && history[|history| - 1].Elsewhere?
    requires c.verdict == Dropped && c.backends == {} && !c.refused && Droppable(Replay(start, history), c.name)
    ensures Observed(start, history + [DroppedHere(c.name)], |history|, c, rules)
  {
    assert (history + [DroppedHere(c.name)])[..|history|] == history;
  }

  lemma ObservedLater(start: Cluster, history: seq<Happening>, later: seq<Happening>, moment: nat, c: Candidate,
      rules: Rules)
    requires Observed(start, history, moment, c, rules) && history <= later
    ensures Observed(start, later, moment, c, rules)
  {
    assert later[..moment] == history[..moment];
  }

  /** Every candidate's verdict was observed after the listing, one candidate after the other. */
  ghost predicate AllObserved(start: Cluster, history: seq<Happening>, since: nat, moments: seq<nat>,
      results: seq<Candidate>, rules: Rules) {
    && |moments| == |results| && (forall m | m in moments :: m > since)
    && (forall i | 0 <= i < |results| :: Observed(start, history, moments[i], results[i], rules))
    && (forall i, j | 0 <= i < j < |moments| :: moments[i] <= moments[j])
    && (forall i, j | 0 <= i < j < |moments| :: Classify(results[j].name, rules).Considered? ==>
      moments[i] < moments[j])
  }

  lemma ObservedMore(start: Cluster, before: seq<Happening>, after: seq<Happening>, since: nat, moments: seq<nat>,
      results: seq<Candidate>,
      moment: nat, c: Candidate, rules: Rules)
    requires AllObserved(start, before, since, moments, results, rules) && before <= after
      && Observed(start, after, moment, c, rules)
    requires since < |before| <= moment && (Classify(c.name, rules).Considered? ==> |before| < moment)
    ensures AllObserved(start, after, since, moments + [moment], results + [c], rules)
  {
    var all := results + [c];
    forall i | 0 <= i < |all| ensures Observed(start, after, (moments + [moment])[i], all[i], rules) {
      if i < |results| {
        ObservedLater(start, before, after, moments[i], results[i], rules);
      }
    }
    assert forall i | 0 <= i < |moments| ::
      Observed(start, before, moments[i], results[i], rules) && moments[i] <= |before|;
    hide Observed, Classify;
  }

  /** A liveness check, as the sweep's bookkeeping sees it. */
  method Check(connection: Connection, name: string, rules: Rules, ghost from: nat) returns (pids: set<int>)
    requires connection.Valid() && SafeFrom(connection.start, connection.history, from, rules)
    modifies connection
    ensures connection.Valid() && SafeFrom(connection.start, connection.history, from, rules)
    ensures old(connection.history) <= connection.history
      && DropsIn(connection.history) == DropsIn(old(connection.history))
    ensures pids == Backends(connection.cluster, name)
    ensures connection.statements == old(connection.statements) + 1
    ensures connection.history == old(connection.history) + [Turn(connection, old(connection.statements))]
  {
    hide SafeFrom, DropsIn, Backends;
    DropsElsewhere(connection.history, connection.environment(connection.statements), connection.start, from, rules);
    pids := connection.LiveBackends(name);
  }

  /** A drop of something the rules allow. */
  method Attempt(connection: Connection, name: string, rules: Rules, ghost from: nat) returns (done: bool)
    requires connection.Valid() && SafeFrom(connection.start, connection.history, from, rules) && MayDrop(name, rules)
    modifies connection
    ensures connection.Valid() && SafeFrom(connection.start, connection.history, from, rules)
    ensures old(connection.history) <= connection.history
    ensures DropsIn(connection.history)
      == if done then DropsIn(old(connection.history)) + [name] else DropsIn(old(connection.history))
    ensures connection.statements == old(connection.statements) + 1
    ensures var turn := old(connection.history) + [Turn(connection, old(connection.statements))];
      && done == Droppable(Replay(connection.start, turn), name)
      && connection.history == if done then turn + [DroppedHere(name)] else turn
  {
    assert WorkerIndex(name).Some? || IsMigrationCheck(name);
    assert Turn(connection, connection.statements) == Elsewhere(connection.environment(connection.statements));
    hide *;
    ghost var turn := connection.history + [Elsewhere(connection.environment(connection.statements))];
    DropsElsewhere(connection.history, connection.environment(connection.statements), connection.start, from, rules);
    var r := connection.Drop(name);
    done := r == Ok(true);
    if done {
      HistoryMore(turn, DroppedHere(name));
      SafeMore(connection.start, turn, from, rules, DroppedHere(name));
    }
  }

  /** What was idle at its first check is checked once more, and then dropped if Postgres lets it. */
  method Pursue(connection: Connection, candidate: Candidate, rules: Rules, ghost from: nat)
    returns (c: Candidate, ghost moment: nat)
    requires connection.Valid() && SafeFrom(connection.start, connection.history, from, rules)
      && MayDrop(candidate.name, rules)
    requires candidate.verdict == Protected && !candidate.refused
    modifies connection
    ensures connection.Valid() && SafeFrom(connection.start, connection.history, from, rules)
    ensures old(connection.history) <= connection.history
    ensures c == candidate.(verdict := c.verdict, backends := c.backends, refused := c.refused)
    ensures c.verdict == if c.backends != {} || c.refused then Protected else Dropped
    ensures DropsIn(connection.history) == DropsIn(old(connection.history)) +
      if c.verdict == Dropped then [c.name] else []
    ensures Observed(connection.start, connection.history, moment, c, rules)
    ensures |old(connection.history)| < moment
    ensures c.verdict == Dropped || c.refused ==>
      && connection.statements == old(connection.statements) + 2
      && Idle(connection, old(connection.history) + [Turn(connection, old(connection.statements))], c.name)
      && moment == |old(connection.history)| + 2
  {
    hide SafeFrom, DropsIn, Classify, MayDrop, Backends, Replay, Droppable, Observed;
    var backends := Check(connection, candidate.name, rules, from);
    c := candidate.(backends := backends);
    moment := |connection.history|;
    if c.backends != {} {
      ObservedNow(connection.start, connection.history, c, rules);
      return;
    }
    ghost var turn := connection.history + [Turn(connection, connection.statements)];
    moment := |turn|;
    var done := Attempt(connection, candidate.name, rules, from);
    if done {
      c := c.(verdict := Dropped);
      ObservedDrop(connection.start, turn, c, rules);
    } else {
      c := c.(refused := true);
      ObservedNow(connection.start, turn, c, rules);
    }
  }

  /**
   * One candidate of the loop, from its classification to its verdict. What is spared costs no statement;
   * the rest is checked for backends at once, and before a drop is even tried it is found idle twice.
   */
  method Judge(connection: Connection, row: Row, rules: Rules, apply: bool, ghost from: nat)
    returns (c: Candidate, ghost moment: nat)
    requires connection.Valid() && SafeFrom(connection.start, connection.history, from, rules)
    modifies connection
    ensures connection.Valid() && SafeFrom(connection.start, connection.history, from, rules)
    ensures old(connection.history) <= connection.history
    ensures Judged(c, row, rules, apply)
    ensures DropsIn(connection.history) == DropsIn(old(connection.history)) +
      if c.verdict == Dropped then [c.name] else []
    ensures Classify(row.name, rules).Spared? ==> connection.statements == old(connection.statements)
    ensures |old(connection.history)| <= moment && (Classify(row.name, rules).Considered? ==>
      |old(connection.history)| < moment)
    ensures Observed(connection.start, connection.history, moment, c, rules)
    ensures c.verdict == WouldDrop ==> connection.statements == old(connection.statements) + 1
    ensures c.verdict == Dropped || c.refused ==>
      var n := old(connection.statements); var first := old(connection.history) + [Turn(connection, n)];
      && connection.statements == n + 3
      && Idle(connection, first, c.name) && Idle(connection, first + [Turn(connection, n + 1)], c.name)
      && moment == |old(connection.history)| + 3
  {
    ClassifyIff(row.name, rules);
    var sort := Classify(row.name, rules);
    c := Candidate(row.name, sort.index, row.size, Protected, {}, false);
    moment := |connection.history|;
    assert sort.Spared? ==> Observed(connection.start, connection.history, moment, c, rules);
    hide SafeFrom, DropsIn, Classify, MayDrop, Backends, Replay, Droppable, Observed;
    if sort.Spared? {
      return;
    }
    var backends := Check(connection, row.name, rules, from);
    c := c.(backends := backends);
    moment := |connection.history|;
    if c.backends != {} {
      ObservedNow(connection.start, connection.history, c, rules);
      return;
    }
    if !apply {
      c := c.(verdict := WouldDrop);
      ObservedNow(connection.start, connection.history, c, rules);
      return;
    }
    c, moment := Pursue(connection, c, rules, from);
  }

  /**
   * The sweep, whatever other sessions do before each of its statements. Every listed database gets
   * exactly one verdict; the drops it made are exactly the ones it reports, in order; at the moment of
   * each drop the database existed, nobody was connected, and the rules allowed it; a dry run drops nothing.
   */
  method Sweep(connection: Connection, rules: Rules, apply: bool)
    returns (results: seq<Candidate>, ghost rows: seq<Row>, ghost moments: seq<nat>)
    requires connection.Valid()
    modifies connection
    ensures connection.Valid()
    ensures old(connection.history) <= connection.history
    ensures IsListing(
      Replay(connection.start, old(connection.history) +
        [Elsewhere(connection.environment(old(connection.statements)))]), rows)
    ensures AllJudged(results, rows, rules, apply)
    ensures AllObserved(connection.start, connection.history, |old(connection.history)|, moments, results, rules)
    ensures DropsIn(connection.history) == DropsIn(old(connection.history)) + DroppedNames(results)
    ensures SafeFrom(connection.start, connection.history, |old(connection.history)|, rules)
    ensures !apply ==> DropsIn(connection.history) == DropsIn(old(connection.history))
  {
    ghost var from := |connection.history|;
    assert SafeFrom(connection.start, connection.history, from, rules);
    DropsElsewhere(connection.history, connection.environment(connection.statements), connection.start, from, rules);
    var listed := connection.ListWorkerDatabases();
    rows := listed;
    results, moments := [], [];
    ghost var dropped := DropsIn(connection.history);
    assert AllJudged(results, rows[..0], rules, apply) && DroppedNames(results) == [] && dropped + [] == dropped;
    assert AllObserved(connection.start, connection.history, from, moments, results, rules);
    hide *;
    for i := 0 to |listed|
      invariant connection.Valid() && old(connection.history) <= connection.history
      invariant AllJudged(results, listed[..i], rules, apply)
      invariant AllObserved(connection.start, connection.history, from, moments, results, rules)
      invariant |connection.history| > from
      invariant DropsIn(connection.history) == dropped + DroppedNames(results)
      invariant SafeFrom(connection.start, connection.history, from, rules)
    {
      ghost var before := connection.history;
      var c, moment := Judge(connection, listed[i], rules, apply, from);
      JudgedName(c, listed[i], rules, apply);
      ObservedMore(connection.start, before, connection.history, from, moments, results, moment, c, rules);
      moments := moments + [moment];
      DroppedMore(results, c);
      JudgedMore(results, listed, i, rules, apply, c);
      ConcatAssoc(dropped, DroppedNames(results), if c.verdict == Dropped then [c.name] else []);
      results := results + [c];
    }
    assert listed[..|listed|] == listed;
    if !apply {
      NothingDropped(results, rows, rules);
      assert dropped + [] == dropped;
    }
  }

  lemma JudgedName(c: Candidate, row: Row, rules: Rules, apply: bool)
    requires Judged(c, row, rules, apply)
    ensures c.name == row.name
  {
  }

  lemma JudgedMore(results: seq<Candidate>, rows: seq<Row>, i: nat, rules: Rules, apply: bool, c: Candidate)
    requires i < |rows| && AllJudged(results, rows[..i], rules, apply) && Judged(c, rows[i], rules, apply)
    ensures AllJudged(results + [c], rows[..i + 1], rules, apply)
  {
    hide Judged;
    forall j | 0 <= j < i + 1 ensures Judged((results + [c])[j], rows[..i + 1][j], rules, apply) {
      if j < i {
        assert Judged(results[j], rows[..i][j], rules, apply);
      }
    }
  }

  lemma {:induction false} NothingDropped(results: seq<Candidate>, rows: seq<Row>, rules: Rules)
    requires AllJudged(results, rows, rules, false)
    ensures DroppedNames(results) == []
  {
    if results != [] {
      var n := |results| - 1;
      assert Judged(results[n], rows[n], rules, false);
      assert forall i | 0 <= i < n :: Judged(results[..n][i], rows[..n][i], rules, false);
      hide Judged, Classify;
      NothingDropped(results[..n], rows[..n], rules);
    }
  }

  function Evolved(c: Cluster, moves: seq<seq<Action>>): Cluster {
    if moves == [] then c else AllActed(Evolved(c, moves[..|moves| - 1]), moves[|moves| - 1])
  }

  /** Without a drop, the cluster is what the other sessions alone have made of it. */
  lemma {:induction false} Invisible(start: Cluster, history: seq<Happening>)
    requires DropsIn(history) == []
    ensures Replay(start, history) == Evolved(start, Others(history))
  {
    if history != [] {
      var before, h := history[..|history| - 1], history[|history| - 1];
      assert h.Elsewhere?;
      Invisible(start, before);
      assert Others(history) == Others(before) + [h.actions];
      assert (Others(before) + [h.actions])[..|Others(before)|] == Others(before);
    }
  }

  // ---------------------------------------------------------------------------------
  // `main`, from parsed arguments to the sweep

  datatype Exit = Swept | BadProtect | RefusedApply

  /** Some piece of some `--protect` names no worker. */
  ghost predicate Unreadable(protect: seq<string>) {
    exists p :: p in PiecesOf(protect) && PieceIndex(p).None?
  }

  /** `--apply` needs a lease set, or its override. */
  predicate NoEvidence(leased: Option<set<nat>>, allowNoLeases: bool, apply: bool) {
    apply && leased.None? && !allowNoLeases
  }

  /** The workers that `--protect` names and the caller's own, and no other. */
  ghost predicate Spares(spared: set<nat>, protect: seq<string>, self: Option<nat>) {
    forall i :: i in spared <==> self == Some(i) || exists p :: p in PiecesOf(protect) && PieceIndex(p) == Some(i)
  }

  lemma ParsedSpares(protect: seq<string>, parsed: Result<set<nat>, Error>, self: Option<nat>)
    requires Protects(PiecesOf(protect), parsed)
    ensures parsed.Err? <==> Unreadable(protect)
    ensures parsed.Ok? ==> Spares(parsed.value + (if self.Some? then {self.value} else {}), protect, self)
  {
    hide PiecesOf, PieceIndex;
  }

  /**
   * The command: an unreadable `--protect`, or `--apply` without a lease set and without its override,
   * touches nothing; otherwise the sweep runs under rules that spare what was named and the caller's own worker.
   */
  method Reclaim(connection: Connection, protect: seq<string>, self: Option<nat>, leased: Option<set<nat>>,
                 allowNoLeases: bool, includeScratch: bool, apply: bool)
    returns (exit: Exit, results: seq<Candidate>, ghost rows: seq<Row>, ghost rules: Rules, ghost moments: seq<nat>)
    requires connection.Valid()
    modifies connection
    ensures connection.Valid()
    ensures exit == BadProtect <==> Unreadable(protect)
    ensures exit == RefusedApply <==> !Unreadable(protect) && NoEvidence(leased, allowNoLeases, apply)
    ensures exit == Swept <==> !Unreadable(protect) && !NoEvidence(leased, allowNoLeases, apply)
    ensures exit != Swept ==> connection.history == old(connection.history) && results == []
    ensures exit == Swept ==>
      && rules.leased == leased && rules.includeScratch == includeScratch && Spares(rules.protect, protect, self)
      && IsListing(Replay(connection.start, old(connection.history) +
           [Elsewhere(connection.environment(old(connection.statements)))]), rows)
      && AllJudged(results, rows, rules, apply)
      && AllObserved(connection.start, connection.history, |old(connection.history)|, moments, results, rules)
      && SafeFrom(connection.start, connection.history, |old(connection.history)|, rules)
      && DropsIn(connection.history) == DropsIn(old(connection.history)) + DroppedNames(results)
      && (!apply ==> DropsIn(connection.history) == DropsIn(old(connection.history)))
  {
    results, rows, moments := [], [], [];
    rules := Rules({}, leased, includeScratch);
    var parsed := ParseProtect(protect);
    ParsedSpares(protect, parsed, self);
    hide SafeFrom, DropsIn, DroppedNames, IsListing, AllJudged, AllObserved, Protects, Unreadable, Spares, Replay;
    if parsed.Err? {
      return BadProtect, results, rows, rules, moments;
    }
    var indexes := parsed.value;
    if self.Some? {
      indexes := indexes + {self.value};
    }
    if apply && leased.None? && !allowNoLeases {
      return RefusedApply, results, rows, rules, moments;
    }
    assert indexes == parsed.value + if self.Some? then {self.value} else {};
    var run := Rules(indexes, leased, includeScratch);
    rules := run;
    exit := Swept;
    results, rows, moments := Sweep(connection, run, apply);
  }

  /** No drop of a safe history is ever the database of a worker the rules keep: worker 0 under any rules among them. */
  lemma NeverDropped(start: Cluster, history: seq<Happening>, from: nat, rules: Rules, worker: nat, i: nat)
    requires SafeFrom(start, history, from, rules) && from <= i < |history| && history[i].DroppedHere?
    requires !Abandoned(worker, rules)
    ensures history[i].name != DatabaseName(worker)
  {
    assert SafeAt(start, history, i, rules);
    WorkerDatabase(worker, rules);
    ClassifyIff(DatabaseName(worker), rules);
  }
}