// proxyshop_support/redis_client.py and worker.py: the central key prefix, the logical database a worker
// is admitted to, and what the two together guarantee between workers on one Redis server.
module WorkerIsolation {
  import opened Prelude
  import opened Decimals
  import opened Letters

  // ---------------------------------------------------------------------------------
  // worker.py: the prefix and the database index

  const REDIS_DB_COUNT: nat := 16

  function KeyPrefix(worker: int): string {
    "w" + IntText(worker) + ":"
  }

  /** The server's own count decides when it gave one; otherwise the environment's, otherwise 16. */
  function Ceiling(server: Option<nat>, environment: Option<nat>): nat {
    if server.Some? then server.value else if environment.Some? then environment.value else REDIS_DB_COUNT
  }

  datatype Refusal = Refused(ceiling: nat) | Banned

  function RedisDbIndex(worker: int, ceiling: nat): Result<int, Refusal> {
    if worker >= ceiling then Err(Refused(ceiling)) else Ok(worker)
  }

  /** `worker_redis`: what a client is bound to. */
  datatype Client = Client(worker: int, db: int)

  function WorkerRedis(worker: int, server: Option<nat>, environment: Option<nat>): Result<Client, Refusal> {
    match RedisDbIndex(worker, Ceiling(server, environment))
    case Ok(db) => Ok(Client(worker, db))
    case Err(e) => Err(e)
  }

  /** Taken modulo the ceiling, the index would land on a smaller worker's database. */
  predicate CollidesBelow(worker: int, ceiling: nat)
    requires ceiling > 0
  {
    0 <= worker % ceiling < worker
  }

  /**
   * Admission never folds an index onto another worker's: what is admitted keeps distinct workers on
   * distinct databases below the ceiling, and what is refused is exactly what a modulo would have
   * put on the database of some smaller admitted worker.
   */
  lemma Admission(v: int, w: int, server: Option<nat>, environment: Option<nat>)
    requires Ceiling(server, environment) > 0
    ensures var a, b := WorkerRedis(v, server, environment), WorkerRedis(w, server, environment);
      a.Ok? && b.Ok? ==> (a.value.db == b.value.db <==> v == w) && a.value.db < Ceiling(server, environment)
    ensures WorkerRedis(v, server, environment).Err? <==> CollidesBelow(v, Ceiling(server, environment))
    ensures WorkerRedis(v, server, environment).Err? ==>
      WorkerRedis(v % Ceiling(server, environment), server, environment).Ok?
  {
    FoldsBelow(v, Ceiling(server, environment));
    hide CollidesBelow, Ceiling;
  }

  lemma FoldsBelow(worker: int, ceiling: nat)
    requires ceiling > 0
    ensures CollidesBelow(worker, ceiling) <==> worker >= ceiling
    ensures worker % ceiling < ceiling
  {
  }

  // ---------------------------------------------------------------------------------
  // Namespaces

  function Key(prefix: string, name: string): string {
    if prefix <= name then name else prefix + name
  }

  function Unkey(prefix: string, name: string): string {
    if prefix <= name then name[|prefix|..] else name
  }

  /**
   * Namespacing always lands in the namespace, changes nothing the second time, and is undone by
   * `unkey` exactly for the names that did not already carry the prefix; a stored name is recovered
   * from its short form exactly when it is in the namespace once and not twice.
   */
  lemma KeyLaws(prefix: string, name: string)
    requires prefix != ""
    ensures prefix <= Key(prefix, name)
    ensures Key(prefix, Key(prefix, name)) == Key(prefix, name)
    ensures Unkey(prefix, Key(prefix, name)) == name <==> !(prefix <= name)
    ensures Key(prefix, Unkey(prefix, name)) == name <==> prefix <= name && !(prefix <= name[|prefix|..])
  {
    assert (prefix + name)[|prefix|..] == name;
    if prefix <= name {
      assert name == prefix + name[|prefix|..];
      assert |name[|prefix|..]| < |name|;
    }
  }

  lemma OnlyColonEnds(worker: int, i: nat)
    requires i < |KeyPrefix(worker)| - 1
    ensures KeyPrefix(worker)[i] != ':'
  {
    var t := IntText(worker);
    if 0 < i {
      assert KeyPrefix(worker)[i] == t[i - 1] && t[i - 1] in t;
    }
  }

  lemma NoShorterPrefix(v: int, w: int, name: string)
    requires KeyPrefix(v) <= name && KeyPrefix(w) <= name
    ensures |KeyPrefix(v)| >= |KeyPrefix(w)|
  {
    var p, q := KeyPrefix(v), KeyPrefix(w);
    var last := |p| - 1;
    assert p[last] == name[last] == ':';
    if last < |q| - 1 {
      OnlyColonEnds(w, last);
    }
  }

  /** No name is in the namespaces of two workers. */
  lemma NamespacesDisjoint(v: int, w: int, name: string)
    requires KeyPrefix(v) <= name && KeyPrefix(w) <= name
    ensures v == w
  {
    var p, q := KeyPrefix(v), KeyPrefix(w);
    NoShorterPrefix(v, w, name);
    NoShorterPrefix(w, v, name);
    assert p == name[..|p|] == q;
    assert p[1..|p| - 1] == IntText(v) && q[1..|q| - 1] == IntText(w);
    IntTextInjective(v, w);
  }

  // ---------------------------------------------------------------------------------
  // `_positions` and `execute_command`

  const KEYLESS: set<string> := {
    "AUTH", "BGREWRITEAOF", "BGSAVE", "CLIENT", "CLUSTER", "COMMAND", "CONFIG", "DBSIZE", "DEBUG", "DISCARD",
    "ECHO", "EXEC", "FLUSHDB", "HELLO", "INFO", "LASTSAVE", "LOLWUT", "MEMORY", "MONITOR", "MULTI", "PING",
    "PSUBSCRIBE", "PUNSUBSCRIBE", "QUIT", "RANDOMKEY", "REPLICAOF", "RESET", "ROLE", "SAVE", "SCAN", "SELECT",
    "SHUTDOWN", "SLAVEOF", "SLOWLOG", "SWAPDB", "TIME", "UNWATCH", "WAIT" }

  const EVERY_ARGUMENT: set<string> := {
    "DEL", "EXISTS", "MGET", "PFCOUNT", "PFMERGE", "SDIFF", "SDIFFSTORE", "SINTER", "SINTERSTORE", "SUNION",
    "SUNIONSTORE", "TOUCH", "UNLINK", "WATCH", "SUBSCRIBE", "UNSUBSCRIBE" }

  const FIRST_TWO: set<string> := { "COPY", "RENAME", "RENAMENX", "SMOVE" }

  function Range(low: nat, high: nat): (r: seq<nat>)
    ensures forall i :: i in r <==> low <= i < high
  {
    if low >= high then [] else Range(low, high - 1) + [high - 1]
  }

  /** The argument positions, counted from 1, that are rewritten as keys. */
  function Positions(command: string, argc: nat): (r: seq<nat>)
    ensures forall i | i in r :: 1 <= i <= argc
  {
    if command in EVERY_ARGUMENT then Range(1, argc + 1)
    else if command == "BLPOP" || command == "BRPOP" then Range(1, argc)
    else if command == "BITOP" then Range(2, argc + 1)
    else if command in FIRST_TWO then Range(1, Min(argc, 2) + 1)
    else Range(1, Min(argc, 1) + 1)
  }

  /** Where a command's keys stand: from `first` to `last`, counted from 1; a negative `last` counts from the end. */
  datatype KeySpan = KeySpan(first: nat, last: int)

  const NO_KEY := KeySpan(1, 0)

  /** The table the rewriting is written for, command by command; every other command has the one key. */
  function SpanOf(command: string): KeySpan {
    match command
    case "DEL" => KeySpan(1, -1)
    case "EXISTS" => KeySpan(1, -1)
    case "MGET" => KeySpan(1, -1)
    case "PFCOUNT" => KeySpan(1, -1)
    case "PFMERGE" => KeySpan(1, -1)
    case "SDIFF" => KeySpan(1, -1)
    case "SDIFFSTORE" => KeySpan(1, -1)
    case "SINTER" => KeySpan(1, -1)
    case "SINTERSTORE" => KeySpan(1, -1)
    case "SUNION" => KeySpan(1, -1)
    case "SUNIONSTORE" => KeySpan(1, -1)
    case "TOUCH" => KeySpan(1, -1)
    case "UNLINK" => KeySpan(1, -1)
    case "WATCH" => KeySpan(1, -1)
    case "SUBSCRIBE" => KeySpan(1, -1)
    case "UNSUBSCRIBE" => KeySpan(1, -1)
    case "BITOP" => KeySpan(2, -1)
    case "BLPOP" => KeySpan(1, -2)
    case "BRPOP" => KeySpan(1, -2)
    case "COPY" => KeySpan(1, 2)
    case "RENAME" => KeySpan(1, 2)
    case "RENAMENX" => KeySpan(1, 2)
    case "SMOVE" => KeySpan(1, 2)
    case "AUTH" => NO_KEY
    case "BGREWRITEAOF" => NO_KEY
    case "BGSAVE" => NO_KEY
    case "CLIENT" => NO_KEY
    case "CLUSTER" => NO_KEY
    case "COMMAND" => NO_KEY
    case "CONFIG" => NO_KEY
    case "DBSIZE" => NO_KEY
    case "DEBUG" => NO_KEY
    case "DISCARD" => NO_KEY
    case "ECHO" => NO_KEY
    case "EXEC" => NO_KEY
    case "FLUSHDB" => NO_KEY
    case "HELLO" => NO_KEY
    case "INFO" => NO_KEY
    case "LASTSAVE" => NO_KEY
    case "LOLWUT" => NO_KEY
    case "MEMORY" => NO_KEY
    case "MONITOR" => NO_KEY
    case "MULTI" => NO_KEY
    case "PING" => NO_KEY
    case "PSUBSCRIBE" => NO_KEY
    case "PUNSUBSCRIBE" => NO_KEY
    case "QUIT" => NO_KEY
    case "RANDOMKEY" => NO_KEY
    case "REPLICAOF" => NO_KEY
    case "RESET" => NO_KEY
    case "ROLE" => NO_KEY
    case "SAVE" => NO_KEY
    case "SCAN" => NO_KEY
    case "SELECT" => NO_KEY
    case "SHUTDOWN" => NO_KEY
    case "SLAVEOF" => NO_KEY
    case "SLOWLOG" => NO_KEY
    case "SWAPDB" => NO_KEY
    case "TIME" => NO_KEY
    case "UNWATCH" => NO_KEY
    case "WAIT" => NO_KEY
    case _ => KeySpan(1, 1)
  }

  predicate InSpan(span: KeySpan, argc: nat, i: nat) {
    span.first <= i <= argc && if span.last < 0 then i <= argc + 1 + span.last else i <= span.last
  }

  lemma SpanRead(command: string)
    ensures SpanOf(command) ==
      if command in EVERY_ARGUMENT then KeySpan(1, -1)
      else if command == "BLPOP" || command == "BRPOP" then KeySpan(1, -2)
      else if command == "BITOP" then KeySpan(2, -1)
      else if command in FIRST_TWO then KeySpan(1, 2)
      else if command in KEYLESS then NO_KEY
      else KeySpan(1, 1)
  {
  }

  lemma KeylessApart(command: string)
    requires command in KEYLESS
    ensures command !in EVERY_ARGUMENT && command !in FIRST_TWO
    ensures command != "BLPOP" && command != "BRPOP" && command != "BITOP"
  {
  }

  /** Exactly the positions of the table are rewritten, however many arguments there are. */
  lemma PositionsAre(command: string, argc: nat, i: nat)
    ensures command !in KEYLESS && i in Positions(command, argc) <==> InSpan(SpanOf(command), argc, i)
  {
    SpanRead(command);
    if command in KEYLESS {
      KeylessApart(command);
    }
    hide SpanOf, EVERY_ARGUMENT, FIRST_TWO, KEYLESS;
  }

  /** What reaches the server for a call with these arguments, the command's name first. */
  function Sent(prefix: string, args: seq<string>): Result<seq<string>, Refusal> {
    if args == [] then Ok([])
    else if Upper(args[0]) == "FLUSHALL" then Err(Banned)
    else if Upper(args[0]) in KEYLESS then Ok(args)
    else Ok(seq(|args|, i requires 0 <= i < |args| =>
      if i in Positions(Upper(args[0]), |args| - 1) then Key(prefix, args[i]) else args[i]))
  }

  /** What is sent, by the table: its keys namespaced and everything else as it came; FLUSHALL alone is refused. */
  lemma SentIs(prefix: string, args: seq<string>)
    requires args != []
    ensures Sent(prefix, args) == Err(Banned) <==> Upper(args[0]) == "FLUSHALL"
    ensures Upper(args[0]) != "FLUSHALL" ==>
      && Sent(prefix, args).Ok? && |Sent(prefix, args).value| == |args|
      && forall i | 0 <= i < |args| :: Sent(prefix, args).value[i] ==
           if InSpan(SpanOf(Upper(args[0])), |args| - 1, i) then Key(prefix, args[i]) else args[i]
  {
    var command, argc := Upper(args[0]), |args| - 1;
    forall i: nat ensures command !in KEYLESS && i in Positions(command, argc) <==> InSpan(SpanOf(command), argc, i) {
      PositionsAre(command, argc, i);
    }
    hide KEYLESS, Positions, SpanOf, InSpan, Upper, Key;
  }

  /** `execute_command` up to the call it delegates to: the copied argument list, rewritten in place. */
  method ExecuteCommand(prefix: string, args: seq<string>) returns (r: Result<seq<string>, Refusal>)
    ensures r == Sent(prefix, args)
  {
    if args == [] {
      return Ok([]);
    }
    var command := Upper(args[0]);
    if command == "FLUSHALL" {
      return Err(Banned);
    }
    if command in KEYLESS {
      return Ok(args);
    }
    var positions := Positions(command, |args| - 1);
    hide Upper, Positions;
    var rewritten := args;
    for k := 0 to |positions|
      invariant |rewritten| == |args|
      invariant forall i | 0 <= i < |args| ::
        rewritten[i] == if i in positions[..k] then Key(prefix, args[i]) else args[i]
    {
      var pos := positions[k];
      assert pos in positions && positions[..k + 1] == positions[..k] + [pos];
      rewritten := rewritten[pos := Key(prefix, rewritten[pos])];
    }
    assert positions[..|positions|] == positions;
    r := Ok(rewritten);
    assert r.value == Sent(prefix, args).value;
  }
}
