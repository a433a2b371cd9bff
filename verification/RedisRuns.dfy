// Whole runs of many workers' clients against one Redis server: what each worker can see of the others.
// What a key command does to the values of its keys is the server's business (`Server`).
module RedisRuns {
  import opened Letters
  import opened Prelude
  import opened WorkerIsolation

  type Store = map<string, string>

  /** `keys`: which argument positions of a command the server takes as keys. */
  datatype Server = Server(
    keys: seq<string> -> set<nat>, effect: (seq<string>, Store) -> Store, reply: (seq<string>, Store) -> string)

  datatype Event = Event(client: Client, args: seq<string>)

  datatype State = State(
    dbs: map<int, Store>, subscribed: set<(int, string)>,
    mail: map<int, seq<(string, string)>>, replies: map<int, seq<string>>)

  const EMPTY: State := State(map[], {}, map[], map[])

  function Db(s: State, db: int): Store {
    if db in s.dbs then s.dbs[db] else map[]
  }

  function Mail(s: State, worker: int): seq<(string, string)> {
    if worker in s.mail then s.mail[worker] else []
  }

  function Replies(s: State, worker: int): seq<string> {
    if worker in s.replies then s.replies[worker] else []
  }

  ghost function KeysOf(server: Server, args: seq<string>): set<string> {
    set i | i in server.keys(args) && 1 <= i < |args| :: args[i]
  }

  ghost function Only(store: Store, keys: set<string>): Store {
    map k | k in store && k in keys :: store[k]
  }

  /** A key command reads and replaces the entries under its keys, and nothing else. */
  ghost function Touched(server: Server, args: seq<string>, store: Store): Store {
    (store - KeysOf(server, args)) + Only(server.effect(args, Only(store, KeysOf(server, args))), KeysOf(server, args))
  }

  ghost function Delivered(s: State, channel: string, message: string): map<int, seq<(string, string)>> {
    s.mail + map v | v in (set p | p in s.subscribed && p.1 == channel :: p.0) :: Mail(s, v) + [(channel, message)]
  }

  /** One command that reached the server, from this client. */
  ghost function Served(server: Server, s: State, c: Client, a: seq<string>): State
    requires a != []
  {
    var command := Upper(a[0]);
    if command == "FLUSHDB" then s.(dbs := s.dbs[c.db := map[]])
    else if command in KEYLESS then s
    else if command == "SUBSCRIBE" then s.(subscribed := s.subscribed + set ch | ch in a[1..] :: (c.worker, ch))
    else if command == "UNSUBSCRIBE" then
      s.(subscribed := set p | p in s.subscribed && !(p.0 == c.worker && (|a| == 1 || p.1 in a[1..])))
    else if command == "PUBLISH" then
      if |a| == 3 then s.(mail := Delivered(s, a[1], a[2])) else s
    else Ran(server, s, c, a)
  }

  ghost function Ran(server: Server, s: State, c: Client, a: seq<string>): State {
    var store := Db(s, c.db);
    s.(dbs := s.dbs[c.db := Touched(server, a, store)],
       replies := s.replies[c.worker := Replies(s, c.worker) + [server.reply(a, Only(store, KeysOf(server, a)))]])
  }

  ghost function Step(server: Server, s: State, e: Event): State {
    match Sent(KeyPrefix(e.client.worker), e.args)
    case Err(_) => s
    case Ok(a) => if a == [] then s else Served(server, s, e.client, a)
  }

  ghost function Run(server: Server, events: seq<Event>): State {
    if events == [] then EMPTY else Step(server, Run(server, events[..|events| - 1]), events[|events| - 1])
  }

  ghost function Of(events: seq<Event>, worker: int): seq<Event> {
    if events == [] then []
    else Of(events[..|events| - 1], worker) + if events[|events| - 1].client.worker == worker
      then [events[|events| - 1]] else []
  }

  // ---------------------------------------------------------------------------------
  // What a worker sees

  ghost function Mine(store: Store, prefix: string): Store {
    map k | k in store && prefix <= k :: store[k]
  }

  datatype View = View(entries: Store, channels: set<string>, mail: seq<(string, string)>, replies: seq<string>)

  ghost function ViewOf(s: State, c: Client): View {
    View(Mine(Db(s, c.db), KeyPrefix(c.worker)), set p | p in s.subscribed && p.0 == c.worker :: p.1,
      Mail(s, c.worker), Replies(s, c.worker))
  }

  /** Whoever is subscribed to a channel, the channel is in that worker's namespace. */
  ghost predicate OwnChannels(s: State) {
    forall p | p in s.subscribed :: KeyPrefix(p.0) <= p.1
  }

  /** The argument positions a client rewrites: none of a command it takes to have no keys. */
  function Rewritten(command: string, argc: nat): seq<nat> {
    if Upper(command) in KEYLESS then [] else Positions(Upper(command), argc)
  }

  /** The key positions the server sees are among those the client rewrites. */
  ghost predicate Covered(server: Server, e: Event) {
    var a := Sent(KeyPrefix(e.client.worker), e.args);
    a.Ok? && a.value != [] ==>
      forall i | i in server.keys(a.value) && 1 <= i < |a.value| :: i in Rewritten(a.value[0], |a.value| - 1)
  }

  ghost predicate Flushes(e: Event) {
    e.args != [] && Upper(e.args[0]) == "FLUSHDB"
  }

  ghost predicate Under(keys: set<string>, prefix: string) {
    forall k | k in keys :: prefix <= k
  }

  /** Rewriting namespaces every rewritten position and leaves every other argument alone. */
  lemma SentShape(prefix: string, args: seq<string>)
    requires prefix != "" && args != [] && Upper(args[0]) !in KEYLESS && Sent(prefix, args).Ok?
    ensures var a := Sent(prefix, args).value;
      && |a| == |args| && a[0] == args[0]
      && (forall i | i in Positions(Upper(a[0]), |a| - 1) :: prefix <= a[i])
      && (forall i | 0 <= i < |a| && i !in Positions(Upper(a[0]), |a| - 1) :: a[i] == args[i])
  {
    var a := Sent(prefix, args).value;
    forall i | i in Positions(Upper(a[0]), |a| - 1) ensures prefix <= a[i] {
      KeyLaws(prefix, args[i]);
    }
  }

  /** Sending what was already rewritten rewrites nothing more. */
  lemma SentIdempotent(prefix: string, args: seq<string>)
    requires prefix != "" && Sent(prefix, args).Ok?
    ensures Sent(prefix, Sent(prefix, args).value) == Sent(prefix, args)
  {
    if args != [] && Upper(args[0]) !in KEYLESS {
      SentShape(prefix, args);
      var a := Sent(prefix, args).value;
      hide Upper, Positions;
      assert Sent(prefix, a).value == a;
    }
  }

  ghost predicate InRange(keys: set<nat>, argc: nat) {
    forall i | i in keys :: 1 <= i <= argc
  }

  /** However the arguments read, the arguments at these positions reach the server namespaced. */
  ghost predicate AlwaysNamespaced(prefix: string, command: string, argc: nat, keys: set<nat>)
    requires InRange(keys, argc)
  {
    forall args: seq<string> | |args| == argc + 1 && args[0] == command && Sent(prefix, args).Ok? ::
      NamespacedAt(prefix, Sent(prefix, args).value, keys)
  }

  ghost predicate NamespacedAt(prefix: string, a: seq<string>, keys: set<nat>) {
    forall i | i in keys && i < |a| :: prefix <= a[i]
  }

  lemma RewrittenNamespaced(prefix: string, argc: nat, keys: set<nat>, args: seq<string>)
    requires prefix != "" && |args| == argc + 1 && Sent(prefix, args).Ok?
    requires InRange(keys, argc) && forall i | i in keys :: i in Rewritten(args[0], argc)
    ensures NamespacedAt(prefix, Sent(prefix, args).value, keys)
  {
    if Upper(args[0]) !in KEYLESS {
      SentShape(prefix, args);
      hide Sent, Upper, Positions, KEYLESS;
    }
  }

  lemma NamespacedRewritten(prefix: string, args: seq<string>, keys: set<nat>)
    requires prefix != "" && args != [] && Sent(prefix, args).Ok?
    requires (forall i | 0 < i < |args| :: args[i] == "") && InRange(keys, |args| - 1)
    requires NamespacedAt(prefix, Sent(prefix, args).value, keys)
    ensures forall i | i in keys :: i in Rewritten(args[0], |args| - 1)
  {
    if Upper(args[0]) !in KEYLESS {
      SentShape(prefix, args);
      hide Sent, Upper, Positions, KEYLESS;
    } else {
      assert Sent(prefix, args).value == args;
      hide Sent, Upper, Positions, KEYLESS;
    }
  }

  ghost function Blank(command: string, argc: nat): (args: seq<string>)
    ensures |args| == argc + 1 && args[0] == command && forall i | 0 < i < |args| :: args[i] == ""
  {
    [command] + seq(argc, _ => "")
  }

  /**
   * A command is safe for all its arguments exactly when it never reaches the server, or its key positions are all
   * among the rewritten ones; for one taken to have no keys, when it has none.
   */
  lemma NamespacedIffRewritten(prefix: string, command: string, argc: nat, keys: set<nat>)
    requires prefix != "" && InRange(keys, argc)
    ensures AlwaysNamespaced(prefix, command, argc, keys)
      <==> Upper(command) == "FLUSHALL" || forall i | i in keys :: i in Rewritten(command, argc)
    ensures Upper(command) in KEYLESS ==> (AlwaysNamespaced(prefix, command, argc, keys) <==> keys == {})
  {
    var blank := Blank(command, argc);
    FlushallRefused(prefix, blank);
    KeylessRewritten(command, argc);
    hide Upper, Sent, NamespacedAt, Rewritten, KEYLESS, Blank;
    if AlwaysNamespaced(prefix, command, argc, keys) && Upper(command) != "FLUSHALL" {
      NamespacedRewritten(prefix, blank, keys);
    }
    if Upper(command) == "FLUSHALL" || forall i | i in keys :: i in Rewritten(command, argc) {
      forall args: seq<string> | |args| == argc + 1 && args[0] == command && Sent(prefix, args).Ok?
        ensures NamespacedAt(prefix, Sent(prefix, args).value, keys)
      {
        FlushallRefused(prefix, args);
        RewrittenNamespaced(prefix, argc, keys, args);
      }
    }
  }

  lemma FlushallRefused(prefix: string, args: seq<string>)
    requires args != []
    ensures Sent(prefix, args).Err? <==> Upper(args[0]) == "FLUSHALL"
  {
  }

  lemma KeylessRewritten(command: string, argc: nat)
    ensures Upper(command) in KEYLESS ==> Rewritten(command, argc) == [] && Upper(command) != "FLUSHALL"
  {
    KeylessNames(Upper(command));
    hide KEYLESS, Positions;
  }

  lemma KeylessNames(name: string)
    ensures name in KEYLESS ==> name != "FLUSHALL"
  {
    assert "FLUSHALL"[0] == 'F' && "FLUSHALL"[5] == 'A';
    assert name in KEYLESS && name[0] == 'F' ==> name == "FLUSHDB";
  }

  /** However the arguments read, those that are no keys reach the server as they are. */
  ghost predicate OthersKept(prefix: string, command: string, argc: nat, keys: set<nat>) {
    forall args: seq<string> | |args| == argc + 1 && args[0] == command && Sent(prefix, args).Ok? ::
      KeptOutside(Sent(prefix, args).value, args, keys)
  }

  ghost predicate KeptOutside(a: seq<string>, args: seq<string>, keys: set<nat>) {
    |a| == |args| && forall i | 0 < i < |args| && i !in keys :: a[i] == args[i]
  }

  lemma KeptWhereNotRewritten(prefix: string, args: seq<string>, keys: set<nat>)
    requires prefix != "" && args != [] && Sent(prefix, args).Ok?
    requires forall i | i in Rewritten(args[0], |args| - 1) :: i in keys
    ensures KeptOutside(Sent(prefix, args).value, args, keys)
  {
    if Upper(args[0]) !in KEYLESS {
      SentShape(prefix, args);
      hide Sent, Upper, Positions, KEYLESS;
    }
  }

  lemma RewrittenNotKept(prefix: string, args: seq<string>, keys: set<nat>)
    requires prefix != "" && args != [] && Sent(prefix, args).Ok?
    requires forall i | 0 < i < |args| :: args[i] == ""
    requires KeptOutside(Sent(prefix, args).value, args, keys)
    ensures forall i | i in Rewritten(args[0], |args| - 1) :: i in keys
  {
    if Upper(args[0]) !in KEYLESS {
      SentShape(prefix, args);
      var a, positions := Sent(prefix, args).value, Positions(Upper(args[0]), |args| - 1);
      hide Sent, Upper, Positions, KEYLESS;
      forall i | i in positions ensures i in keys {
        assert 1 <= i < |args| && prefix <= a[i];
      }
    }
  }

  /** Rewriting touches nothing but keys exactly when every rewritten position is one. */
  lemma OnlyKeysRewrittenIff(prefix: string, command: string, argc: nat, keys: set<nat>)
    requires prefix != ""
    ensures OthersKept(prefix, command, argc, keys)
      <==> Upper(command) == "FLUSHALL" || forall i | i in Rewritten(command, argc) :: i in keys
  {
    hide *;
    if OthersKept(prefix, command, argc, keys) && Upper(command) != "FLUSHALL" {
      BlankKept(prefix, command, argc, keys);
    }
    if Upper(command) == "FLUSHALL" || forall i | i in Rewritten(command, argc) :: i in keys {
      KeptWhen(prefix, command, argc, keys);
    }
  }

  lemma BlankKept(prefix: string, command: string, argc: nat, keys: set<nat>)
    requires prefix != "" && OthersKept(prefix, command, argc, keys) && Upper(command) != "FLUSHALL"
    ensures forall i | i in Rewritten(command, argc) :: i in keys
  {
    var blank := Blank(command, argc);
    FlushallRefused(prefix, blank);
    hide Upper, Sent, KeptOutside, Rewritten, Blank;
    RewrittenNotKept(prefix, blank, keys);
  }

  lemma KeptWhen(prefix: string, command: string, argc: nat, keys: set<nat>)
    requires prefix != ""
    requires Upper(command) == "FLUSHALL" || forall i | i in Rewritten(command, argc) :: i in keys
    ensures OthersKept(prefix, command, argc, keys)
  {
    hide Upper, Sent, KeptOutside, Rewritten;
    forall args: seq<string> | |args| == argc + 1 && args[0] == command && Sent(prefix, args).Ok?
      ensures KeptOutside(Sent(prefix, args).value, args, keys)
    {
      FlushallRefused(prefix, args);
      KeptWhereNotRewritten(prefix, args, keys);
    }
  }

  lemma ListedNames(name: string)
    ensures name in KEYLESS ==> |name| != 4 || name[0] != 'M'
    ensures name in EVERY_ARGUMENT ==> |name| != 4 || name[1] != 'S'
    ensures name in FIRST_TWO ==> |name| != 4 || name[0] != 'M'
  {
  }

  lemma MsetUnlisted()
    ensures Upper("MSET") == "MSET" && "MSET" !in KEYLESS && Positions("MSET", 4) == [1]
  {
    hide KEYLESS, EVERY_ARGUMENT, FIRST_TWO;
    ListedNames("MSET");
  }

  /** MSET is not in the table: only its first key is rewritten, so its second lands outside the namespace. */
  lemma MsetEscapes(prefix: string)
    requires prefix != ""
    ensures !AlwaysNamespaced(prefix, "MSET", 4, {1, 3})
    ensures Sent(prefix, ["MSET", "a", "1", "b", "2"]) == Ok(["MSET", Key(prefix, "a"), "1", "b", "2"])
  {
    MsetUnlisted();
    hide KEYLESS, Upper, Positions, Key;
    assert 3 in {1, 3};
    NamespacedIffRewritten(prefix, "MSET", 4, {1, 3});
    var args := ["MSET", "a", "1", "b", "2"];
    assert args[0] == "MSET";
    assert Sent(prefix, args).value == ["MSET", Key(prefix, "a"), "1", "b", "2"];
  }

  lemma EvalNames(name: string)
    ensures name in KEYLESS ==> |name| != 4 || name[1] != 'V'
    ensures name in EVERY_ARGUMENT ==> |name| != 4 || name[1] != 'V'
    ensures name in FIRST_TWO ==> |name| != 4 || name[1] != 'V'
  {
  }

  lemma EvalUnlisted()
    ensures Upper("EVAL") == "EVAL" && "EVAL" !in KEYLESS && Positions("EVAL", 3) == [1]
  {
    hide KEYLESS, EVERY_ARGUMENT, FIRST_TWO;
    EvalNames("EVAL");
  }

  /** EVAL is not in the table either: its script is rewritten, and its one key, in third place, is not. */
  lemma EvalRewritesItsScript(prefix: string)
    requires prefix != ""
    ensures !OthersKept(prefix, "EVAL", 3, {3}) && !AlwaysNamespaced(prefix, "EVAL", 3, {3})
  {
    EvalUnlisted();
    assert 1 !in {3} && 3 in {3} && 1 in Rewritten("EVAL", 3) && 3 !in Rewritten("EVAL", 3) && "EVAL" != "FLUSHALL";
    hide KEYLESS, Upper, Positions, OthersKept, AlwaysNamespaced, Rewritten;
    OnlyKeysRewrittenIff(prefix, "EVAL", 3, {3});
    NamespacedIffRewritten(prefix, "EVAL", 3, {3});
  }

  // ---------------------------------------------------------------------------------
  // One step

  lemma MineTouchedForeign(server: Server, a: seq<string>, store: Store, v: int, w: int)
    requires v != w && Under(KeysOf(server, a), KeyPrefix(v))
    ensures Mine(Touched(server, a, store), KeyPrefix(w)) == Mine(store, KeyPrefix(w))
  {
    forall k | k in KeysOf(server, a) ensures !(KeyPrefix(w) <= k) {
      if KeyPrefix(w) <= k {
        NamespacesDisjoint(v, w, k);
      }
    }
  }

  lemma OnlyOfMine(store: Store, other: Store, keys: set<string>, prefix: string)
    requires Under(keys, prefix) && Mine(store, prefix) == Mine(other, prefix)
    ensures Only(store, keys) == Only(other, keys)
  {
    forall k | k in keys ensures (k in store <==> k in other) && (k in store ==> store[k] == other[k]) {
      assert k in store <==> k in Mine(store, prefix);
      assert k in other <==> k in Mine(other, prefix);
      assert k in store ==> Mine(store, prefix)[k] == store[k];
      assert k in other ==> Mine(other, prefix)[k] == other[k];
    }
  }

  lemma MineTouchedOwn(server: Server, a: seq<string>, store: Store, other: Store, prefix: string)
    requires Under(KeysOf(server, a), prefix) && Mine(store, prefix) == Mine(other, prefix)
    ensures Mine(Touched(server, a, store), prefix) == Mine(Touched(server, a, other), prefix)
  {
    var keys := KeysOf(server, a);
    OnlyOfMine(store, other, keys, prefix);
    var s, t := Mine(Touched(server, a, store), prefix), Mine(Touched(server, a, other), prefix);
    forall k | prefix <= k ensures k in s <==> k in t {
      assert k in store <==> k in Mine(store, prefix);
      assert k in other <==> k in Mine(other, prefix);
    }
    forall k | k in s ensures s[k] == t[k] {
      if k !in keys {
        assert k in store && Mine(store, prefix)[k] == store[k];
        assert k in other && Mine(other, prefix)[k] == other[k];
      }
    }
  }

  /** What reaches the server for a covered key command stays in the client's namespace. */
  lemma CoveredUnder(server: Server, e: Event)
    requires Covered(server, e)
    ensures var a := Sent(KeyPrefix(e.client.worker), e.args);
      a.Ok? && a.value != [] && Upper(a.value[0]) !in KEYLESS ==>
        Under(KeysOf(server, a.value), KeyPrefix(e.client.worker))
  {
    var p := KeyPrefix(e.client.worker);
    if e.args != [] && Sent(p, e.args).Ok? && Upper(e.args[0]) !in KEYLESS {
      SentShape(p, e.args);
    }
  }

  /** The arguments that reached the server are in the client's namespace where they must be. */
  ghost predicate Scoped(server: Server, c: Client, a: seq<string>) {
    a != [] && (Upper(a[0]) !in KEYLESS ==> Under(KeysOf(server, a), KeyPrefix(c.worker)))
    && (Channelled(a) ==> forall i | 1 <= i < |a| && !(Upper(a[0]) == "PUBLISH" && i > 1) ::
      KeyPrefix(c.worker) <= a[i])
  }

  /** Commands whose arguments (for PUBLISH, the first) are channels. */
  ghost predicate Channelled(a: seq<string>)
    requires a != []
  {
    Upper(a[0]) == "SUBSCRIBE" || Upper(a[0]) == "PUBLISH"
  }

  lemma ChannelPositions(command: string, argc: nat)
    ensures "SUBSCRIBE" !in KEYLESS && "PUBLISH" !in KEYLESS
    ensures command == "SUBSCRIBE" ==> Positions(command, argc) == Range(1, argc + 1)
    ensures command == "PUBLISH" ==> Positions(command, argc) == Range(1, Min(argc, 1) + 1)
  {
    ChannelNames("SUBSCRIBE");
    ChannelNames("PUBLISH");
    assert "SUBSCRIBE" in EVERY_ARGUMENT;
    hide KEYLESS, EVERY_ARGUMENT, FIRST_TWO;
  }

  lemma ChannelNames(name: string)
    ensures name in KEYLESS ==> |name| < 7 || (name[0] != 'P' && name[1] != 'U') || |name| == 10 || |name| == 12
    ensures name in EVERY_ARGUMENT ==> |name| != 7 || name[0] != 'P' || name[1] != 'U'
    ensures name in FIRST_TWO ==> |name| != 7
  {
  }

  lemma SentScoped(server: Server, e: Event)
    requires Covered(server, e)
    ensures var a := Sent(KeyPrefix(e.client.worker), e.args);
      a.Ok? && a.value != [] ==> Scoped(server, e.client, a.value)
  {
    CoveredUnder(server, e);
    var p := KeyPrefix(e.client.worker);
    if e.args != [] && Sent(p, e.args).Ok? {
      var a := Sent(p, e.args).value;
      ChannelPositions(Upper(a[0]), |a| - 1);
      if Upper(e.args[0]) !in KEYLESS {
        SentShape(p, e.args);
      }
      hide KEYLESS, Sent, Positions, Upper;
    }
  }

  /** Every subscription stays in its owner's namespace. */
  lemma ServedKeepsChannels(server: Server, s: State, c: Client, a: seq<string>)
    requires Scoped(server, c, a) && OwnChannels(s)
    ensures OwnChannels(Served(server, s, c, a))
  {
    hide KEYLESS, Upper, KeyPrefix, KeysOf, Touched;
    if Upper(a[0]) == "SUBSCRIBE" {
      forall ch | ch in a[1..] ensures KeyPrefix(c.worker) <= ch {
        var i :| 1 <= i < |a| && a[i] == ch;
      }
    }
  }

  /** Another worker's command leaves the view alone, unless it flushes the very same database. */
  lemma ForeignServed(server: Server, s: State, c: Client, a: seq<string>, d: Client)
    requires Scoped(server, c, a) && OwnChannels(s) && c.worker != d.worker
    requires Upper(a[0]) == "FLUSHDB" ==> c.db != d.db
    ensures ViewOf(Served(server, s, c, a), d) == ViewOf(s, d)
  {
    var t := Served(server, s, c, a);
    hide KEYLESS, Upper, KeyPrefix, KeysOf, Mine, Touched;
    if Upper(a[0]) == "FLUSHDB" || Upper(a[0]) in KEYLESS {
      hide Ran, Delivered, Scoped;
    } else if Upper(a[0]) == "SUBSCRIBE" || Upper(a[0]) == "UNSUBSCRIBE" {
      hide Ran, Delivered, Scoped;
      assert ViewOf(t, d).channels == ViewOf(s, d).channels;
    } else if Upper(a[0]) == "PUBLISH" {
      if |a| == 3 {
        ForeignDelivered(s, c, a[1], a[2], d);
        hide Ran, Delivered, ViewOf, OwnChannels;
      }
    } else {
      ForeignRan(server, s, c, a, d);
      hide Ran, Delivered, ViewOf, OwnChannels;
    }
  }

  lemma ForeignDelivered(s: State, c: Client, channel: string, message: string, d: Client)
    requires OwnChannels(s) && c.worker != d.worker && KeyPrefix(c.worker) <= channel
    ensures ViewOf(s.(mail := Delivered(s, channel, message)), d) == ViewOf(s, d)
  {
    if (d.worker, channel) in s.subscribed {
      NamespacesDisjoint(c.worker, d.worker, channel);
    }
    hide KeyPrefix, Mine;
  }

  lemma ForeignRan(server: Server, s: State, c: Client, a: seq<string>, d: Client)
    requires Under(KeysOf(server, a), KeyPrefix(c.worker)) && c.worker != d.worker
    ensures ViewOf(Ran(server, s, c, a), d) == ViewOf(s, d)
  {
    MineTouchedForeign(server, a, Db(s, c.db), c.worker, d.worker);
    hide KeyPrefix, KeysOf, Mine, Touched;
  }

  lemma OwnRan(server: Server, s: State, t: State, c: Client, a: seq<string>)
    requires Under(KeysOf(server, a), KeyPrefix(c.worker)) && ViewOf(s, c) == ViewOf(t, c)
    ensures ViewOf(Ran(server, s, c, a), c) == ViewOf(Ran(server, t, c, a), c)
  {
    MineTouchedOwn(server, a, Db(s, c.db), Db(t, c.db), KeyPrefix(c.worker));
    OnlyOfMine(Db(s, c.db), Db(t, c.db), KeysOf(server, a), KeyPrefix(c.worker));
    hide KeyPrefix, KeysOf, Mine, Touched, Only;
  }

  lemma OwnDelivered(s: State, t: State, c: Client, channel: string, message: string)
    requires ViewOf(s, c) == ViewOf(t, c)
    ensures ViewOf(s.(mail := Delivered(s, channel, message)), c)
      == ViewOf(t.(mail := Delivered(t, channel, message)), c)
  {
    hide KeyPrefix, Mine;
    assert (c.worker, channel) in s.subscribed <==> channel in ViewOf(s, c).channels;
    assert (c.worker, channel) in t.subscribed <==> channel in ViewOf(t, c).channels;
  }

  lemma OwnSubscriptions(s: State, t: State, c: Client, more: set<(int, string)>)
    requires ViewOf(s, c) == ViewOf(t, c)
    ensures ViewOf(s.(subscribed := s.subscribed + more), c) == ViewOf(t.(subscribed := t.subscribed + more), c)
  {
    hide KeyPrefix, Mine;
    var u, v := ViewOf(s.(subscribed := s.subscribed + more), c), ViewOf(t.(subscribed := t.subscribed + more), c);
    var own := set p | p in more && p.0 == c.worker :: p.1;
    assert u.channels == ViewOf(s, c).channels + own;
    assert v.channels == ViewOf(t, c).channels + own;
  }

  lemma OwnUnsubscribed(server: Server, s: State, t: State, c: Client, a: seq<string>)
    requires a != [] && Upper(a[0]) == "UNSUBSCRIBE" && Upper(a[0]) !in KEYLESS && ViewOf(s, c) == ViewOf(t, c)
    ensures ViewOf(Served(server, s, c, a), c) == ViewOf(Served(server, t, c, a), c)
  {
    hide KeyPrefix, Mine, KEYLESS, Upper, Ran, Delivered;
    var u, v := ViewOf(Served(server, s, c, a), c), ViewOf(Served(server, t, c, a), c);
    var kept := set ch | ch in ViewOf(s, c).channels && !(|a| == 1 || ch in a[1..]);
    assert u.channels == kept;
    assert v.channels == kept;
  }

  /** A worker's own command does to its view what the view alone determines. */
  lemma OwnServed(server: Server, s: State, t: State, c: Client, a: seq<string>)
    requires Scoped(server, c, a) && ViewOf(s, c) == ViewOf(t, c)
    ensures ViewOf(Served(server, s, c, a), c) == ViewOf(Served(server, t, c, a), c)
  {
    hide KeyPrefix, KEYLESS, Upper, Ran, Delivered, Under, KeysOf;
    if Upper(a[0]) == "FLUSHDB" || Upper(a[0]) in KEYLESS {
      hide ViewOf;
      if Upper(a[0]) == "FLUSHDB" {
        OwnFlushed(s, t, c);
      }
    } else if Upper(a[0]) == "UNSUBSCRIBE" {
      OwnUnsubscribed(server, s, t, c, a);
      hide *;
    } else {
      hide ViewOf;
      if Upper(a[0]) == "SUBSCRIBE" {
        OwnSubscriptions(s, t, c, set ch | ch in a[1..] :: (c.worker, ch));
      } else if Upper(a[0]) == "PUBLISH" {
        if |a| == 3 {
          OwnDelivered(s, t, c, a[1], a[2]);
        }
      } else {
        OwnRan(server, s, t, c, a);
      }
    }
  }

  lemma OwnFlushed(s: State, t: State, c: Client)
    requires ViewOf(s, c) == ViewOf(t, c)
    ensures ViewOf(s.(dbs := s.dbs[c.db := map[]]), c) == ViewOf(t.(dbs := t.dbs[c.db := map[]]), c)
  {
    hide KeyPrefix;
  }

  // ---------------------------------------------------------------------------------
  // Runs

  /**
   * Each worker keeps to one client, the server's key positions are rewritten ones, and nobody else flushes
   * `c`'s database.
   */
  ghost predicate Separate(server: Server, events: seq<Event>, c: Client) {
    forall e | e in events :: Covered(server, e)
      && (e.client.worker == c.worker ==> e.client == c)
      && (e.client.worker != c.worker && Flushes(e) ==> e.client.db != c.db)
  }

  lemma {:induction false} RunKeepsChannels(server: Server, events: seq<Event>)
    requires forall e | e in events :: Covered(server, e)
    ensures OwnChannels(Run(server, events))
  {
    if events != [] {
      var before, e := events[..|events| - 1], events[|events| - 1];
      assert e in events && forall x | x in before :: x in events;
      RunKeepsChannels(server, before);
      SentScoped(server, e);
      var a := Sent(KeyPrefix(e.client.worker), e.args);
      hide Sent, Scoped, Served, Covered, OwnChannels;
      if a.Ok? && a.value != [] {
        ServedKeepsChannels(server, Run(server, before), e.client, a.value);
      }
    }
  }

  lemma SentName(prefix: string, args: seq<string>)
    requires Sent(prefix, args).Ok? && Sent(prefix, args).value != []
    ensures args != [] && Upper(Sent(prefix, args).value[0]) == Upper(args[0])
  {
  }

  /**
   * Non-interference over every interleaving: what a worker sees after any run is what it would have
   * seen had only its own commands run, provided no other worker flushed its database.
   */
  lemma {:induction false} NonInterference(server: Server, events: seq<Event>, c: Client)
    requires Separate(server, events, c)
    ensures ViewOf(Run(server, events), c) == ViewOf(Run(server, Of(events, c.worker)), c)
  {
    if events != [] {
      var before, e := events[..|events| - 1], events[|events| - 1];
      assert e in events && forall x | x in before :: x in events;
      NonInterference(server, before, c);
      RunKeepsChannels(server, before);
      var s, t := Run(server, before), Run(server, Of(before, c.worker));
      if e.client.worker == c.worker {
        OwnStep(server, s, t, e, c);
        assert Of(events, c.worker)[..|Of(events, c.worker)| - 1] == Of(before, c.worker);
      } else {
        ForeignStep(server, s, e, c);
        assert Of(events, c.worker) == Of(before, c.worker);
      }
      hide Step, ViewOf, Covered, Separate, OwnChannels;
    }
  }

  lemma OwnStep(server: Server, s: State, t: State, e: Event, c: Client)
    requires e.client == c && Covered(server, e) && ViewOf(s, c) == ViewOf(t, c)
    ensures ViewOf(Step(server, s, e), c) == ViewOf(Step(server, t, e), c)
  {
    SentScoped(server, e);
    var a := Sent(KeyPrefix(c.worker), e.args);
    hide Sent, Scoped, Served, ViewOf, Covered, KeyPrefix;
    if a.Ok? && a.value != [] {
      OwnServed(server, s, t, c, a.value);
    }
  }

  lemma ForeignStep(server: Server, s: State, e: Event, c: Client)
    requires e.client.worker != c.worker && Covered(server, e) && OwnChannels(s)
    requires Flushes(e) ==> e.client.db != c.db
    ensures ViewOf(Step(server, s, e), c) == ViewOf(s, c)
  {
    SentScoped(server, e);
    var a := Sent(KeyPrefix(e.client.worker), e.args);
    if a.Ok? && a.value != [] {
      SentName(KeyPrefix(e.client.worker), e.args);
      hide Sent, Scoped, Served, ViewOf, Covered, KeyPrefix, OwnChannels, Upper;
      ForeignServed(server, s, e.client, a.value, c);
    }
  }

  // ---------------------------------------------------------------------------------
  // Admitted workers

  /** All clients of the run were admitted by `worker_redis` against the same server. */
  ghost predicate Admitted(events: seq<Event>, count: Option<nat>, environment: Option<nat>) {
    forall e | e in events :: WorkerRedis(e.client.worker, count, environment) == Ok(e.client)
  }

  ghost predicate AllUnder(store: Store, prefix: string) {
    forall k | k in store :: prefix <= k
  }

  lemma DbStep(server: Server, s: State, e: Event, c: Client)
    requires Covered(server, e) && AllUnder(Db(s, c.db), KeyPrefix(c.worker))
    requires e.client.db == c.db ==> e.client == c
    ensures AllUnder(Db(Step(server, s, e), c.db), KeyPrefix(c.worker))
  {
    SentScoped(server, e);
    hide KeyPrefix, KEYLESS, Upper, Sent, KeysOf, Covered;
  }

  lemma {:induction false} OwnDatabase(server: Server, events: seq<Event>, c: Client)
    requires forall e | e in events :: Covered(server, e) && (e.client.db == c.db ==> e.client == c)
    ensures AllUnder(Db(Run(server, events), c.db), KeyPrefix(c.worker))
  {
    if events != [] {
      var before, e := events[..|events| - 1], events[|events| - 1];
      assert e in events && forall x | x in before :: x in events;
      OwnDatabase(server, before, c);
      hide Step, Db, AllUnder, Covered;
      DbStep(server, Run(server, before), e, c);
    }
  }

  lemma {:induction false} OfEvents(events: seq<Event>, worker: int)
    ensures forall e | e in Of(events, worker) :: e in events
  {
    if events != [] {
      OfEvents(events[..|events| - 1], worker);
    }
  }

  lemma MineAll(store: Store, prefix: string)
    requires AllUnder(store, prefix)
    ensures Mine(store, prefix) == store
  {
  }

  /**
   * Workers admitted against one ceiling do not interfere, FLUSHDB included: after every interleaving a
   * worker's whole logical database, its channels, its messages and its replies are those of its own commands alone.
   */
  lemma AdmittedNonInterference(server: Server, events: seq<Event>, count: Option<nat>, environment: Option<nat>,
      c: Client)
    requires Admitted(events, count, environment) && WorkerRedis(c.worker, count, environment) == Ok(c)
    requires forall e | e in events :: Covered(server, e)
    ensures Db(Run(server, events), c.db) == Db(Run(server, Of(events, c.worker)), c.db)
    ensures ViewOf(Run(server, events), c) == ViewOf(Run(server, Of(events, c.worker)), c)
  {
    var own := Of(events, c.worker);
    OfEvents(events, c.worker);
    assert forall e | e in events :: e.client.db == e.client.worker;
    OwnDatabase(server, events, c);
    OwnDatabase(server, own, c);
    NonInterference(server, events, c);
    MineAll(Db(Run(server, events), c.db), KeyPrefix(c.worker));
    MineAll(Db(Run(server, own), c.db), KeyPrefix(c.worker));
  }

  lemma FlushName()
    ensures Upper("FLUSHDB") == "FLUSHDB" && "FLUSHDB" in KEYLESS
  {
  }

  /**
   * Where two workers do share a database, key commands still keep apart, but one FLUSHDB by the other
   * leaves a worker's view intact exactly when that worker had nothing to lose.
   */
  lemma SharedFlush(server: Server, events: seq<Event>, c: Client, d: Client)
    requires Separate(server, events, c) && d.worker != c.worker && d.db == c.db
    ensures var all := events + [Event(d, ["FLUSHDB"])];
      ViewOf(Run(server, all), c) == ViewOf(Run(server, Of(all, c.worker)), c)
      <==> ViewOf(Run(server, events), c).entries == map[]
  {
    var e := Event(d, ["FLUSHDB"]);
    var all := events + [e];
    assert all[..|all| - 1] == events;
    FlushName();
    NonInterference(server, events, c);
    var s := Run(server, events);
    FlushStep(server, s, e, c);
    assert Of(all, c.worker) == Of(events, c.worker);
    hide Separate, Step, ViewOf;
  }

  lemma FlushStep(server: Server, s: State, e: Event, c: Client)
    requires e.args == ["FLUSHDB"] && e.client.db == c.db
    ensures ViewOf(Step(server, s, e), c) == ViewOf(s, c).(entries := map[])
  {
    FlushName();
    hide KEYLESS, Upper, KeyPrefix;
  }
}
