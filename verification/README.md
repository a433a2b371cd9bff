# Verified model of the proxyshop support code

This project models the hard core of the proxyshop repository in Dafny and proves what its documentation and
tests promise of it:

- the catalogue window (`CatalogWindow`, `CatalogPicks`, `CatalogSlack`, `StoreCatalog`, `CatalogExact`): a lazy greedy
  maximiser of a saturating coverage objective, its approximation guarantee, the exactness of laziness on every store
  built, and the one list it can return;
- the cross-process re-entrant lock (`LockSystem`, `LockProgress`, `Neo4jLock`): a step system of processes, threads and
  paths over the kernel's locks, who can get in and when, and the bounded wait and the accounting inside one process;
- the static route census (`RouteConstants`, `RouteTable`, `RouteWalk`, `RouteNet`, `RouteCensus`, `RouteAnswers`,
  `RoutePaths`, `RouteRuns`, `RouteRebinding`, `RouteExamples`): a constant evaluator against a least-fixpoint meaning,
  and a walk that must not under-count, against a written-out table, a reading of the module, and its runs;
- the lexical embedding (`Vectors`, `Embedding`, `EmbeddingGrams`): signed feature hashing, normalisation, and the
  0.6/0.4 blend of common words and common trigrams;
- worker isolation (`WorkerNames`, `WorkerIsolation`, `RedisRuns`, `PostgresDsn`): key namespaces, admission, whole runs
  against one Redis server, and the rewriting of connection URIs;
- four stateful protocols: the database sweeper among other sessions (`DbReclaim`, `DbSweep`), the approval gate
  (`ApprovalPins`, `ApprovalReissue`, `ApprovalRoundTrip`, `ApprovalGate`), snapshot and restore over aliased objects
  (`ProcessSeams`), and the ledger publisher's accounting (`TrustLedger`).

`Prelude`, `Decimals`, `Letters` and `RealMath` hold stock idiom, numbers and letters as text, and the facts about real
products the analytic proofs use. Code that updates state is a class or a loop proved against a specification function;
the theorems are about that function.

Where the code departs from its own documentation, the model follows the code:

- `_window_order` says "exact, not approximate" of a loop that accepts a stale price within 1e-12. Of the stores the
  program builds this is true below 49 million products (`CatalogExact.BuiltWindowIsExact`); as a statement about the
  loop alone, for arbitrary weights, it is not (`CatalogSlack.SlackBreaksExactness`).
- The prefix reported for a call is the last one bound to its router's name anywhere in the body, or left by a block
  above. The route is made with what the name holds when the call runs, which may be another binding, another name's
  router, something else or nothing. When exactly the two agree in every run is `RouteRebinding.ReportedIsLive`;
  `RouteExamples.ReboundRouterReportsLastPrefix` and `RouteExamples.ReassignedRouterReportsItsOwnPrefix` are modules
  where they do not.
- The net behind the walk promises that no route goes silently uncounted. It catches what is read off a plain name the
  walk saw bound; calls on anything else pass (`RouteCensus.SilentlyMissed`, `RouteExamples.AliasMissed`).
- The Redis client says every key argument is rewritten. MSET and other commands with several keys that are not in its
  table are rewritten in their first argument only, key or not (`RedisRuns.MsetEscapes`,
  `RedisRuns.EvalRewritesItsScript`), and a listed one such as MEMORY in none; the isolation theorems therefore ask that
  the server's key positions be among the rewritten ones (`RedisRuns.Covered`).
- `--protect` and leases do not reach `*_migrationcheck_*` databases, worker 0's included, once scratch is opted in
  (`DbSweep.ScratchIgnoresProtection`).
- Reading back a re-issued approval request can yield a pin nobody published: when the block's opening fence line ends
  in a bare path and the first covered path starts with 64 hex digits (`ApprovalRoundTrip.RoundTripIff`, with an
  instance in `ApprovalRoundTrip.PublishedIsNotRead`). The list the repository emits starts with
  `fixtures/manifest.json`, so this does not arise there.
- The password of a DSN that is not a URI is not rewritten but misplaced (`PostgresDsn.KeywordDsnBreaks`).

The environment enters as parameters: the clock and the kernel's answers of a wait (`Neo4jLock.World`), SHA-256, the
square root and Unicode folding (`Embedding.Library`), what a Redis command does to its keys (`RedisRuns.Server`), what
other sessions do before each SQL statement (`DbSweep.Connection.environment`), the hashes and the JSON reader and
writer of the gate (`ApprovalGate.Library`), and the outcome of each POST (`TrustLedger.Outcome`). Of the square root
only s >= 0 and s * s = x is assumed; of the logarithm, that it does not fall and that ln 2 >= 0.69 and ln 3 >= 1.09; of
JSON, that a written manifest is read back as it was.

## Model

| member | source | states |
|---|---|---|
| `CatalogWindow.GainIsMarginal` | scripts/build_demo_deployment.py:698-703 | what `gain` prices a product at is exactly the rise of the saturating coverage objective when its (distinct) terms are covered |
| `CatalogWindow.RepeatedTermBreaksMarginal` | scripts/build_demo_deployment.py:698-703 | with a repeated term it is not: the distinctness of title terms is needed, not tidy |
| `CatalogWindow.GainFalls` | scripts/build_demo_deployment.py:691-694 | submodularity: a gain is never negative and never rises as more is covered |
| `CatalogWindow.ObjectiveMonotone` | scripts/build_demo_deployment.py:691-694 | monotonicity: more products never cover less |
| `CatalogWindow.UnionBound` | scripts/build_demo_deployment.py:691-694 | adding a set of products is worth at most its size times a bound on each first gain |
| `CatalogWindow.CoverTerms` | scripts/build_demo_deployment.py:713-715 | the in-place covering loop computes the coverage the objective is stated over |
| `CatalogWindow.RepushShrinks` | scripts/build_demo_deployment.py:705-717 | a rejected pop strictly shrinks the set of entries more than the slack below their fresh key, so each entry goes back at most once between picks |
| `CatalogWindow.WindowOrder` | scripts/build_demo_deployment.py:705-718 | the heap loop terminates and returns the list the lazy specification defines |
| `CatalogWindow.Pop` | scripts/build_demo_deployment.py:709-709 | what comes off the heap is the least (key, ref) pair; which of two tied products that is, `CatalogPicks.EagerIsBestFirst` says of the list |
| `CatalogWindow.StoredBelowFresh` | scripts/build_demo_deployment.py:691-694 | a stale key is never above the fresh one, at any point of any run |
| `CatalogWindow.AcceptedIsGreedy` | scripts/build_demo_deployment.py:709-712 | an accepted product gains within the slack of the best product left |
| `CatalogWindow.LazyGreedy` | scripts/build_demo_deployment.py:705-718 | from every state of a run, the result continues greedily and is exactly as long as window and heap allow |
| `CatalogWindow.WindowIsGreedy` | scripts/build_demo_deployment.py:705-718 | the window holds min(window, products) distinct refs, each pick within 1e-12 (`eps`) of the best remaining gain |
| `CatalogWindow.GreedyGuarantee` | scripts/build_demo_deployment.py:659-718 | for every k, a greedy order of k products covers at least (1 - (1 - 1/k)^k) of what ANY set of at most k products covers, less k times the slack |
| `CatalogWindow.WindowCoverage` | scripts/build_demo_deployment.py:659-718 | the same guarantee for what the heap loop itself returns |
| `CatalogWindow.LazyIsEager` | scripts/build_demo_deployment.py:691-694 | the "exact, not approximate" claim: the heap loop returns the quadratic loop's list, element for element, with an exact comparison, and with the slack whenever saturation steps exceed it |
| `CatalogPicks.EagerIsBestFirst` | scripts/build_demo_deployment.py:687-718 | the quadratic list is the one list of min(window, products) refs in which every pick gains the most of what is left and, of those that gain as much, has the smallest product_ref |
| `CatalogPicks.WindowIsBestFirst` | scripts/build_demo_deployment.py:687-718 | and so is the heap loop's, exactly, under the conditions of `LazyIsEager` |
| `CatalogPicks.EqualTermsInOrder` | scripts/build_demo_deployment.py:687-718 | two products with the same terms come in the order of their refs, and the larger never without the smaller |
| `CatalogWindow.AcceptedIsExact` | scripts/build_demo_deployment.py:709-712 | under the same conditions an accepted stored key is the fresh one |
| `CatalogWindow.PopsBound` | scripts/build_demo_deployment.py:691-694 | the laziness costs at most one scan of the heap per pick |
| `CatalogExact.BuiltWindowIsExact` | scripts/build_demo_deployment.py:691-718 | "exact, not approximate" with the slack as coded: on every store built from titles, with fewer than 49 million products, no weight below the floor and the square-root damping, window and quadratic list are the same, for every window |
| `CatalogExact.BuiltIsCoarse` | scripts/build_demo_deployment.py:698-712 | on such a store every saturation step of every term moves its price by more than the 1e-12 slack |
| `CatalogExact.StoreWindow` | scripts/build_demo_deployment.py:757-760 | weighing the host's terms and then ordering the window gives a well-formed store's window; below 49 million products it is the quadratic loop's list, best first with ties to the smaller ref |
| `CatalogSlack.SlackBreaksExactness` | scripts/build_demo_deployment.py:691-712 | for arbitrary weights the slack does matter: with a weight of 1e-12, which the program never computes, the heap loop returns [c, a] and the quadratic loop [c, b] |
| `CatalogSlack.SqrtDamping` | scripts/build_demo_deployment.py:698-703 | `1/sqrt(1 + k)` is positive and non-increasing for any function that squares back to 1 + k |
| `StoreCatalog.TitleTermsAre` | scripts/build_demo_deployment.py:592-626 | title terms are distinct, and are exactly the kept words and the pairs of neighbouring kept words |
| `StoreCatalog.RunsAre` | scripts/build_demo_deployment.py:617-621 | the words of a title are its runs of word characters, each as long as it goes, the last one included, in order: the title is those words with gaps between them |
| `StoreCatalog.ReadOnce` | scripts/build_demo_deployment.py:617-621 | whatever a title can be read as so, it is these words |
| `StoreCatalog.CountOne` | scripts/build_demo_deployment.py:629-656 | the inner counting loop adds one carrier for every term of one store |
| `StoreCatalog.CountCarrying` | scripts/build_demo_deployment.py:629-656 | the counting loop computes, for every term, in how many stores it occurs |
| `StoreCatalog.TermWeights` | scripts/build_demo_deployment.py:629-656 | exactly the terms at or above the document-frequency floor get a weight, it is the product of the two logarithms, and none is below 0.75 |
| `StoreCatalog.RarerWeighsMore` | scripts/build_demo_deployment.py:629-656 | a term fewer stores carry, or one the store has more of, weighs no less, and more under a growing logarithm |
| `StoreCatalog.BuiltStoreWellFormed` | scripts/build_demo_deployment.py:592-656 | so every store built from titles and vocabularies is one the window's theorems apply to |
| `StoreCatalog.Lead` | scripts/build_demo_deployment.py:761-766 | the lead is the most relevant row; among equals the earliest in the window; outside it the smallest ref |
| `StoreCatalog.RankedIsPermutation` | scripts/build_demo_deployment.py:721-774 | the ranked list is every catalogue ref exactly once |
| `StoreCatalog.RankedOrder` | scripts/build_demo_deployment.py:768-774 | behind the lead the window in its order, then everything else by falling base score and rising ref |
| `StoreCatalog.SnapshotIsWindow` | scripts/build_demo_deployment.py:854-889 | for every snapshot size the products shipped are the window, with its last pick displaced by the lead just when the lead is outside it |
| `LockSystem.StepKeeps` | proxyshop_support/neo4j_lock.py:573-725 | every step of every thread of every process, a start, a spawn or a crash keeps the system invariant |
| `LockSystem.RunKeeps` | proxyshop_support/neo4j_lock.py:573-725 | so every reachable state satisfies it |
| `LockSystem.MutualExclusion` | proxyshop_support/neo4j_lock.py:573-725 | in every reachable state at most one process has blocks open on a path, and the kernel lock is its; that processes do get in is `LockProgress.CanGetInIff` |
| `LockSystem.HeldIsOwned` | proxyshop_support/neo4j_lock.py:626-725 | outside the mutex `_HELD` has a path exactly when this process owns the kernel lock, with depth equal to the blocks its threads have open |
| `LockSystem.NeverTriesOwnLock` | proxyshop_support/neo4j_lock.py:633-650 | a thread waiting on flock never waits on a lock its own process owns |
| `LockSystem.TimeoutChangesNothing` | proxyshop_support/neo4j_lock.py:651-705 | an acquisition that is failing leaves its process's holdings exactly as they were, through any interleaving |
| `LockProgress.CanGetInIff` | proxyshop_support/neo4j_lock.py:619-725 | in every reachable state a thread outside the module can get into a path by steps of its own process alone exactly when no other process has it |
| `LockProgress.EntersFree` | proxyshop_support/neo4j_lock.py:626-706 | a path nobody has is entered by Begin, TakeMutex, Look, one winning Try, Stamp, Return: depth 1, one more open block, the kernel lock this process's, and nothing else changed |
| `LockProgress.EntersHeld` | proxyshop_support/neo4j_lock.py:633-639 | a path in `_HELD` is entered by Begin, TakeMutex, Look, Return, one level deeper, without asking the kernel |
| `LockProgress.TimesOut` | proxyshop_support/neo4j_lock.py:650-691 | however often it polls, a timed-out acquisition of a path another process has ends in the very state it began in |
| `LockProgress.Exits` | proxyshop_support/neo4j_lock.py:709-725 | every open block can be given back, the outermost one with the kernel lock |
| `LockProgress.HandsOver` | proxyshop_support/neo4j_lock.py:709-725 | and then another process's thread has it for the asking |
| `LockProgress.MutexFreed` | proxyshop_support/neo4j_lock.py:626-725 | from every state, the thread inside the mutex can come out of it by its own steps |
| `Neo4jLock.BudgetBounds` | proxyshop_support/neo4j_lock.py:190-209 | the wait budget is the longest one within the request that leaves the 5 s margin whenever 5 s remain; clipping is reported exactly when it clips |
| `Neo4jLock.WaitForFlock` | proxyshop_support/neo4j_lock.py:633-706 | the polling loop is won at the first free attempt and never given up before the deadline; every sleep it asks for is a whole poll, or a shorter one that ends exactly at the deadline; and it is marked contended exactly when the first attempt failed |
| `Neo4jLock.WholePolls` | proxyshop_support/neo4j_lock.py:651-706 | all sleeps but the last are whole polls |
| `Neo4jLock.PollsBounded` | proxyshop_support/neo4j_lock.py:651-706 | with a positive poll interval there are fewer than budget/poll + 1 failed attempts before the deadline |
| `Neo4jLock.LockTable.Acquire` | proxyshop_support/neo4j_lock.py:626-706 | nested without asking the kernel; otherwise the wait; and nothing changes unless it is entered |
| `Neo4jLock.LockTable.Release` | proxyshop_support/neo4j_lock.py:709-725 | only the outermost release takes the path out of `_HELD`, and logs that hold |
| `Neo4jLock.LockTable.RecordReset` | proxyshop_support/neo4j_lock.py:728-750 | a reset is charged to the one hold it belongs to, or to none when that would be a guess |
| `Neo4jLock.HoldAccounts` | proxyshop_support/neo4j_lock.py:213-309 | over any sequence of nestings, releases and resets inside a hold, its record counts the nestings, the deepest moment and the resets with their totals |
| `RouteConstants.EvaluatorAdequate` | proxyshop_support/route_census.py:325-432 | `value` terminates and returns s exactly when the name denotes s in the least-fixpoint semantics of constants, imports, dotted reads, f-strings and `+` |
| `RouteConstants.LiteralAdequate` | proxyshop_support/route_census.py:369-432 | the same of an expression: a route's path, a router's prefix |
| `RouteConstants.DottedIs` | proxyshop_support/route_census.py:435-445 | a chain of plain names, and nothing else, reads as its names joined by dots in order |
| `RouteConstants.CycleCheckNeverSpurious` | proxyshop_support/route_census.py:325-347 | the path-local `_seen` check rejects a name only when it denotes nothing |
| `RouteConstants.UsedTwice` | proxyshop_support/route_census.py:325-432 | a name used twice in one expression is followed twice |
| `RouteConstants.StagesStop` | proxyshop_support/route_census.py:325-347 | as many unfoldings as there are bindings decide every name |
| `RouteConstants.SoundName` | proxyshop_support/route_census.py:325-347 | what `value` returns is denoted |
| `RouteConstants.CompleteName` | proxyshop_support/route_census.py:325-347 | what is denoted, `value` returns, whatever path of names led there |
| `RouteCensus.CensusComplete` | proxyshop_support/route_census.py:481-773 | if the census does not raise, the names it knows are exactly those some walked `name = APIRouter(...)` binds; a surface attribute becomes routes exactly when it is read off such a name; each such call is counted once, as exactly the routes of `RouteTable`, with the prefix visible at that statement (last binding of the nearest body, else what a block above left or was inherited; functions and classes keep theirs); no route comes from anywhere else |
| `RouteCensus.TreeWalked` | proxyshop_support/route_census.py:706-752 | what the walk accumulates over a module is what a reading of the module that knows no walk says it makes |
| `RouteTable.RoutesOfTable` | proxyshop_support/route_census.py:501-703 | a call adds exactly the routes of the written-out table: one per verb it serves, in order, at prefix plus path (or "/"), with its handler, kind, aliases and router, the path being what the keyword or the first argument denotes |
| `RouteTable.VerbTable` | proxyshop_support/route_census.py:501-703 | the verbs: GET for @get to TRACE for @trace, the upper-cased literals of `methods=` in order for the four listed surfaces, WEBSOCKET for the four sockets, MOUNT for a mount; every other surface is refused as uncountable |
| `RouteTable.SurfaceRead` | proxyshop_support/route_census.py:108-132 | the attributes the walk takes for uses are the table's and `host` and `include_router`, read off a plain name; those the net checks, read off anything |
| `RouteTable.PrefixIs` | proxyshop_support/route_census.py:491-492 | a router's prefix is what the keyword denotes, and empty without it |
| `RouteTable.AliasesAre` | proxyshop_support/route_census.py:526-538 | a route's aliases are the names among the pieces its path expression is spelled from |
| `RouteTable.LeavesSpell` | proxyshop_support/route_census.py:401-427 | an expression denotes its pieces run together, none dropped and none out of place |
| `RouteCensus.BindingTable` | proxyshop_support/route_census.py:481-498 | a statement binds exactly the plain names among the targets of an `APIRouter(...)`, at the prefix that denotes |
| `RouteCensus.HoistingReflects` | proxyshop_support/route_census.py:481-498 | binding the routers of a body puts all of its own bindings, in order, after what was in scope |
| `RouteAnswers.AnswersIff` | proxyshop_support/route_census.py:481-753 | it raises exactly when some router's prefix cannot be evaluated, a decorator names a surface attribute without calling it, some such call cannot be read, or a surface attribute on a bound name is no such call |
| `RouteCensus.SilentlyMissed` | proxyshop_support/route_census.py:733-753 | the silent misses, exactly: of all surface attributes of an accepted module, whatever they are read off, the ones uncounted are those not read off a plain name that a walked binding makes a router; no route comes from them |
| `RouteNet.NetSeesAll` | proxyshop_support/route_census.py:733-753 | the net checks every surface attribute among all expressions that can be reached in the file, child by child, as `ast.walk` does: arguments, keywords, headers, walked bodies and the cases of a `match` |
| `RouteCensus.RoutesInAre` | proxyshop_support/route_census.py:756-773 | the answer is the routes the table gives those calls, or those of the mounted router alone, which is then bound, each as often as it was made, by rising path and then verb |
| `RouteWalk.SortedIs` | proxyshop_support/route_census.py:773-773 | the final sort permutes, orders, and keeps the order of routes with equal path and verb |
| `RouteRebinding.LastBindingWins` | proxyshop_support/route_census.py:481-498 | a body sees its own last binding of a router name, or else what it inherited |
| `RouteRebinding.ReportedIsLive` | proxyshop_support/route_census.py:481-498 | for every call and every body: the prefix reported is the one the router's name holds there in every run exactly when that can be read off the statements above: the last to bind the name makes such a router, or copies a name that surely held one, and every binding a block since then may leave last makes such a router too |
| `RouteRebinding.RouterAbove` | proxyshop_support/route_census.py:481-498 | where the last statement above to touch the name makes a router, that is live in every run, and the report is right exactly when a block above left this prefix, or none left any and nothing below binds the name or the last binding below has this prefix |
| `RouteRebinding.AliasAbove` | proxyshop_support/route_census.py:481-498 | where it copies another name, exactly when that name surely held a router with the reported prefix |
| `RouteRebinding.SomethingElseAbove` | proxyshop_support/route_census.py:481-498 | where it binds the name to anything else (an expression, a definition, an import) or deletes it, the report is wrong in some run |
| `RouteRebinding.BlockAbove` | proxyshop_support/route_census.py:721-730 | where a block is the last to touch it, exactly when every binding the block may leave last makes a router with the reported prefix and, if it may leave the name alone, the name held one before; a binding the walk takes from a block is what is reported |
| `RouteRebinding.NothingAbove` | proxyshop_support/route_census.py:481-498 | where nothing above touches it, exactly when the name held such a router on entry |
| `RouteRebinding.OwnNameBelow` | proxyshop_support/route_census.py:706-719 | in a function, a name bound only below the call holds nothing there and the report is wrong |
| `RouteRuns.AlwaysIff` | proxyshop_support/route_census.py:481-498 | what a name holds in every run past some statements can be read off them, exactly, over branches, loops with `break` and `continue`, `with`, `try` and `match` |
| `RoutePaths.EndsSound` | proxyshop_support/route_census.py:721-730 | no run of a block binds a name last in a way not foreseen |
| `RoutePaths.EndsComplete` | proxyshop_support/route_census.py:721-730 | and every way foreseen is that of some run |
| `RoutePaths.Interrupted` | proxyshop_support/route_census.py:721-730 | a run given up at any moment is one of the interrupted runs a `try` or `with` allows |
| `RouteRebinding.JoinApart` | proxyshop_support/route_census.py:547-573 | so the reported path is wrong whenever the prefix is, except between the prefixes "" and "/" at the empty path |
| `RouteExamples.ReboundRouterReportsLastPrefix` | proxyshop_support/route_census.py:481-498 | a module whose route every run makes at "/a/x" is reported at "/b/x": its router is bound again below |
| `RouteExamples.ReassignedRouterReportsItsOwnPrefix` | proxyshop_support/route_census.py:481-498 | a module whose route every run makes at "/b/x" is reported at "/a/x", with nothing below it: its router's name was given another router |
| `RouteExamples.MadeEitherWay` | proxyshop_support/route_census.py:721-730 | a router made on both branches of an `if`, or in a `try` and again in its `except`, is there in every run |
| `RouteAnswers.NothingBound` | proxyshop_support/route_census.py:733-753 | a module that binds no name to a router has no uses and is answered with nothing exactly when its prefixes can be read and no decorator is bare |
| `RouteExamples.AliasMissed` | proxyshop_support/route_census.py:733-753 | a module whose one route is made on a second name of its router is accepted and reported without routes |
| `RouteExamples.PairAndAttributeMissed` | proxyshop_support/route_census.py:733-753 | so are modules that bind their router in a tuple, or to an attribute |
| `RouteExamples.CaseMissed` | proxyshop_support/route_census.py:733-753 | so is one that binds it in a `case` |
| `RouteWalk.RoutesOfFile` | proxyshop_support/route_census.py:756-773 | the imperative walk of a whole module refines the recursive specification the theorems are about |
| `RouteWalk.Walker.Count` | proxyshop_support/route_census.py:547-573 | recording a use appends its routes and marks its call, or refuses |
| `RouteWalk.Walker.Decorators` | proxyshop_support/route_census.py:576-641 | the decorators of a function, one by one |
| `RouteWalk.Walker.Bind` | proxyshop_support/route_census.py:481-498 | binding the routers of a body, before any of it is walked |
| `RouteWalk.Walker.Body` | proxyshop_support/route_census.py:706-730 | one body: bind, then walk |
| `RouteWalk.Walker.Statement` | proxyshop_support/route_census.py:706-730 | one statement of a body, nested bodies included |
| `Embedding.Accumulate` | proxyshop_support/embedding.py:174-179 | the in-place accumulation computes the signed bag |
| `Embedding.HashedBag` | proxyshop_support/embedding.py:174-183 | and the unit vector of it, or nothing when it cancels |
| `Embedding.LexicalEmbed` | proxyshop_support/embedding.py:228-268 | the loops of `lexical_embed` compute the embedding that `ExactBlend`, `WordAgreement` and `EmbeddingGrams.GramAgreement` say is the blend of common words and common trigrams |
| `Embedding.HashingIsIsometric` | proxyshop_support/embedding.py:158-183 | where no two features share a bucket, signed hashing keeps the inner product of the bags |
| `Embedding.ExactBlend` | proxyshop_support/embedding.py:186-268 | for two texts that keep a word and whose features do not collide, the cosine of the embeddings is exactly 0.6 of the word bags' cosine plus 0.4 of the trigram bags', and the last normalisation changes nothing |
| `Embedding.WordAgreement` | proxyshop_support/embedding.py:186-252 | the word half is the number of common words over the roots of the two word counts |
| `EmbeddingGrams.TrigramsAre` | proxyshop_support/embedding.py:136-155 | a word's trigrams are, once each, the three characters at every place of two pads, the word, two pads |
| `EmbeddingGrams.WordsSpelled` | proxyshop_support/embedding.py:136-252 | two words agree by the padded trigrams they share over the roots of how many each has |
| `EmbeddingGrams.GramAgreement` | proxyshop_support/embedding.py:186-252 | and two texts by that sum over all pairs of their words, over the roots of each text's own |
| `EmbeddingGrams.TextAgreement` | proxyshop_support/embedding.py:120-134 | the words of a text are compared without repetitions: the words two texts both have, over the roots of how many different ones each has |
| `EmbeddingGrams.ShoeAndShoes` | proxyshop_support/embedding.py:136-155 | "shoe" and "shoes" share 4 of their 6 and 7 trigrams |
| `Embedding.CollideIff` | proxyshop_support/embedding.py:158-171 | two features share a bucket exactly when the heads of their digests differ by a multiple of the dimension |
| `Embedding.RawCosine` | proxyshop_support/embedding.py:233-243 | two texts that fold away entirely have cosine 0, or 1 or -1 by their signs where they share a bucket |
| `Embedding.WordsWeighAlike` | proxyshop_support/embedding.py:192-196 | every word's trigrams together have norm one, however long the word |
| `Embedding.UnitNorm` | proxyshop_support/embedding.py:213-268 | every non-empty text embeds to norm exactly 1, fold-away and full cancellation included, and the empty one to norm 0 |
| `Embedding.CosineLaws` | proxyshop_support/embedding.py:271-280 | `cosine` errs exactly on a dimension mismatch, is symmetric, lies in [-1, 1], and is the inner product on unit vectors |
| `Embedding.CosineSelf` | proxyshop_support/embedding.py:271-280 | a vector that is not zero has cosine 1 with itself |
| `Vectors.CauchySchwarz` | proxyshop_support/embedding.py:271-280 | the inequality behind the bound |
| `WorkerIsolation.Admission` | proxyshop_support/worker.py:98-169 | admitted workers are on distinct databases below the ceiling, and what is refused is exactly what a modulo would have put on a smaller worker's database |
| `WorkerIsolation.KeyLaws` | proxyshop_support/redis_client.py:158-166 | namespacing lands in the namespace, is idempotent, and is undone by `unkey` exactly for names without the prefix |
| `WorkerIsolation.NamespacesDisjoint` | proxyshop_support/worker.py:67-69 | no name is in the namespaces of two workers, for any integers |
| `WorkerIsolation.ExecuteCommand` | proxyshop_support/redis_client.py:187-202 | the argument rewriting loop computes the rewriting the theorems are about |
| `WorkerIsolation.SentIs` | proxyshop_support/redis_client.py:187-202 | what is sent, by the table of where each command has its keys: those namespaced, everything else as it came, FLUSHALL alone refused |
| `WorkerIsolation.PositionsAre` | proxyshop_support/redis_client.py:46-132 | every argument of DEL, all but the last of BLPOP, from the second of BITOP, the first two of RENAME, none of PING, the first of GET: the table, for every command and number of arguments |
| `RedisRuns.SentShape` | proxyshop_support/redis_client.py:187-202 | every rewritten position is namespaced and every other argument is as it was |
| `RedisRuns.SentIdempotent` | proxyshop_support/redis_client.py:187-202 | sending what was already rewritten rewrites nothing more |
| `RedisRuns.NamespacedIffRewritten` | proxyshop_support/redis_client.py:92-132 | a command is safe for all its arguments exactly when it is refused or its key positions are among the rewritten ones; one listed as keyless, exactly when it has no keys |
| `RedisRuns.OnlyKeysRewrittenIff` | proxyshop_support/redis_client.py:187-202 | and rewriting leaves every argument that is no key alone exactly when it is refused or the rewritten positions are among the key positions |
| `RedisRuns.EvalRewritesItsScript` | proxyshop_support/redis_client.py:92-132 | EVAL fails both: its script is rewritten and its key is not |
| `RedisRuns.MsetEscapes` | proxyshop_support/redis_client.py:92-132 | MSET is not: its second key leaves the namespace |
| `RedisRuns.NonInterference` | proxyshop_support/redis_client.py:1-25 | over every interleaving, a worker's entries, channels, messages and replies are those of its own commands alone, if no other worker flushes its database |
| `RedisRuns.AdmittedNonInterference` | proxyshop_support/redis_client.py:296-352 | for workers admitted against one ceiling this holds with FLUSHDB included, and for the whole logical database |
| `RedisRuns.SharedFlush` | proxyshop_support/redis_client.py:258-293 | on a shared database, another worker's FLUSHDB leaves a worker's view intact exactly when it had no entries |
| `DbReclaim.ParseProtect` | scripts/db_reclaim.py:153-179 | the protected set is exactly what the pieces name, and one piece that names nothing is an error |
| `DbReclaim.Spellings` | scripts/db_reclaim.py:153-179 | `3`, `w3` and `proxyshop_w3` all name 3, for every index |
| `DbReclaim.NamesIff` | scripts/db_reclaim.py:153-179 | a piece names an index exactly when it is digits for it, bare, behind a `w`, or behind the database prefix |
| `DbReclaim.JoinedPieces` | scripts/db_reclaim.py:153-179 | a comma-separated list is read back word for word |
| `DbSweep.ClassifyIff` | scripts/db_reclaim.py:295-365 | a name is considered exactly when it is an opted-in scratch name or the database of an abandoned worker |
| `DbSweep.WorkerDatabase` | scripts/db_reclaim.py:295-365 | worker by worker: never worker 0, a protected index, a leased slot outside the scratch band, or scratch that was not opted in |
| `DbSweep.ListedIsLike` | scripts/db_reclaim.py:273-283 | the listing takes what is LIKE 'proxyshop_w%', whose underscore is any character, and no template |
| `DbSweep.ScratchIgnoresProtection` | scripts/db_reclaim.py:313-324 | per-test scratch names are considered under `--include-scratch` whatever worker index they carry, protected ones and worker 0 included |
| `DbSweep.Connection.Drop` | scripts/db_reclaim.py:368-388 | a plain drop happens exactly when the database exists and nobody is connected at that statement |
| `DbSweep.Judge` | scripts/db_reclaim.py:401-444 | one candidate: what is spared costs no statement, the backends reported, a would-drop, a drop and a refusal are each true of the cluster at the statement they rest on (a refused drop was of a database gone or in use there), and a drop is tried only after two checks, at two statements, found the database idle |
| `DbSweep.Sweep` | scripts/db_reclaim.py:391-445 | under any interleaving with other sessions: one final verdict per listed database in order, each true at a statement of its own, one after the other; the drops are exactly those reported, each was allowed and unused at that moment, and a dry run drops nothing |
| `DbSweep.Invisible` | scripts/db_reclaim.py:391-445 | without a drop the cluster is what the other sessions alone made of it |
| `DbSweep.Reclaim` | scripts/db_reclaim.py:511-570 | an unreadable `--protect` exits so, `--apply` without leases or its override otherwise, both touching nothing; in every other case, and only then, the databases listed at its first statement get one true verdict each under rules that spare exactly what was named and the caller's own worker |
| `DbSweep.NeverDropped` | scripts/db_reclaim.py:391-445 | no drop of a sweep is the database of a worker the rules keep |
| `ApprovalPins.MatcherAdequate` | fixtures/approval/__init__.py:105-105 | the hand-written matcher finds a pin at a position exactly when the pattern's grammar derives one, and then that one |
| `ApprovalPins.RequestPins` | fixtures/approval/__init__.py:160-192 | one digest per pinned document, refused exactly when some document is pinned at two, naming exactly those |
| `ApprovalPins.ReadsOnce` | fixtures/approval/__init__.py:160-192 | there is only one answer that contract allows |
| `ApprovalReissue.ParseLines` | fixtures/approval/__init__.py:110-110 | the blocks found are a well-formed reading of the document, and rendering them gives it back |
| `ApprovalReissue.OutsideKept` | fixtures/approval/__init__.py:245-265 | re-issuing changes the body of the one pin-bearing block and not a character outside it |
| `ApprovalReissue.RoundTrip` | fixtures/approval/__init__.py:245-265 | the pins of the re-issued request are the covered documents, lower-cased, in order, and nothing else |
| `ApprovalReissue.RoundTripRead` | fixtures/approval/__init__.py:160-265 | `request_pins(reissue_request(text, covered))` is `covered` with lower-cased paths |
| `ApprovalRoundTrip.SpoiledPins` | fixtures/approval/__init__.py:245-265 | what is read instead when the opening fence line ends in a bare path and the first path starts like a digest: that bare path pinned at 64 characters of the first path, what is left of that path if it reads as one, and the other documents as published |
| `ApprovalRoundTrip.RoundTripIff` | fixtures/approval/__init__.py:226-265 | the pins read back are the published ones exactly when the first is not spoiled, or is spoiled into itself with nothing left over |
| `ApprovalRoundTrip.RoundTripReadIff` | fixtures/approval/__init__.py:160-265 | the same for the dictionary `request_pins` answers with |
| `ApprovalRoundTrip.PublishedIsNotRead` | fixtures/approval/__init__.py:226-265 | a request with one well-formed block that does not read back as published |
| `ApprovalReissue.ReissueTwice` | fixtures/approval/__init__.py:245-265 | re-issuing again changes nothing, except that an empty list leaves no block to rewrite |
| `ApprovalGate.Tree.DigestReport` | fixtures/approval/__init__.py:268-341 | the report's loop computes the rows the theorems are about |
| `ApprovalGate.Tree.VerifyPinnedDigests` | fixtures/approval/__init__.py:357-380 | refused unless every row agrees |
| `ApprovalGate.VerifiedMeans` | fixtures/approval/__init__.py:268-380 | a passing verification means every covered document on disk is what the request published and what the manifest records |
| `ApprovalGate.VerifiedIff` | fixtures/approval/__init__.py:268-380 | it passes exactly when nothing it reads is missing, the manifest names no other request, its own records hold, and the request publishes every covered document |
| `ApprovalGate.OtherRequestIff` | fixtures/approval/__init__.py:330-336 | a manifest that chooses its own request is refused for that |
| `ApprovalGate.CoveredIs` | fixtures/approval/__init__.py:212-242 | covered are the manifest, its golden set and its catalogue, by the digests of what is on disk, and nothing else |
| `ApprovalGate.StrippedIs` | fixtures/approval/__init__.py:313-318 | the recorded hash is read without the whitespace around it |
| `ApprovalGate.Tree.RecordApproval` | fixtures/approval/__init__.py:439-488 | writes exactly when the approver, the verification and the schema check pass; otherwise the tree is untouched |
| `ApprovalGate.ApprovalStableIff` | fixtures/approval/__init__.py:439-488 | after an approval the tree still verifies exactly when the record and the manifest just written are no covered documents, or happen to hash (and, for the golden set, count) as what stood there, and a covered document at the manifest's path happens to hash to the digest of the body |
| `ApprovalGate.ApprovalStable` | fixtures/approval/__init__.py:439-488 | so it does whenever no covered document is the approval record or the manifest itself |
| `ApprovalGate.EmittedAgrees` | fixtures/approval/__init__.py:226-265 | a request re-issued for the covered documents passes the report's comparison with the request |
| `ProcessSeams.Process.TakeSnapshot` | proxyshop_support/process_seams.py:128-149 | one row per spelling and seam, in order: absent, a reference, or a copy; raises exactly when some mapping seam holds something that is no mapping |
| `ProcessSeams.Process.RestoreTaken` | proxyshop_support/process_seams.py:152-180 | restoring in place does what the specification says, row by row up to the first that raises, and nothing at all when switched off |
| `ProcessSeams.RaisesIff` | proxyshop_support/process_seams.py:152-180 | a restore raises exactly when some mapping seam recorded off a mapping holds no mapping when it starts |
| `ProcessSeams.RestoreIff` | proxyshop_support/process_seams.py:152-180 | every seam is put back exactly when seams that share a place now were recorded alike, which is exactly when a second restore reports nothing |
| `ProcessSeams.RestoreUndoes` | proxyshop_support/process_seams.py:128-180 | whatever happened in between, value seams read what they read before (or nothing, if imported since) and mapping seams hold the same entries in the same object, if sharing after implies sharing before |
| `ProcessSeams.RestoreFrame` | proxyshop_support/process_seams.py:152-180 | no other attribute, dictionary or module moves |
| `ProcessSeams.NothingToDo` | proxyshop_support/process_seams.py:152-180 | the names reported are none exactly when every seam already held what was recorded |
| `ProcessSeams.TableKinds` | proxyshop_support/process_seams.py:107-111 | the repository's own table has one kind per attribute, for any spellings |
| `PostgresDsn.SplitUnsplit` | proxyshop_support/postgres.py:124-145 | reading back a URI put together from its parts gives the parts, save that a path without a slash gains one |
| `PostgresDsn.UnquoteQuote` | proxyshop_support/postgres.py:129-145 | percent-encoding undoes itself for every byte string |
| `PostgresDsn.PasswordLaw` | proxyshop_support/postgres.py:129-145 | rewriting the password keeps scheme, user, host, port, query and fragment, and puts in a password that decodes to the one given; the path is kept exactly when it is empty or starts with a slash |
| `PostgresDsn.PasswordOverwrites` | proxyshop_support/postgres.py:129-145 | only the last rewrite shows |
| `PostgresDsn.DatabaseLaw` | proxyshop_support/postgres.py:124-126 | rewriting the database changes the path and nothing else |
| `PostgresDsn.RolePasswordLaw` | proxyshop_support/postgres.py:148-229 | the seeded password wins for seeded roles, else the DSN's own is left byte for byte, else the fallback |
| `PostgresDsn.RoleDsnDatabase` | proxyshop_support/postgres.py:164-188 | every role's DSN names the worker's own database |
| `PostgresDsn.RoleDsnLogin` | proxyshop_support/postgres.py:164-188 | it keeps scheme, user, host, port, query and fragment of the override, or of the default |
| `PostgresDsn.DefaultLogin` | proxyshop_support/postgres.py:86-121 | the default is the role's own user at $PGHOST and $PG_PORT |
| `PostgresDsn.WorkersApart` | proxyshop_support/postgres.py:164-188 | two workers never get the same database, whatever the roles and environments |
| `PostgresDsn.KeywordDsnBreaks` | proxyshop_support/postgres.py:129-145 | a libpq keyword string is not a URI: its settings end up in the path |
| `TrustLedger.Publisher.PublishOne` | proxyshop_support/trust_ledger.py:237-300 | every publish keeps the counters and the log equal to what the run of publishes makes them, and the ring equal to the last min(512, lost) failures in order |
| `TrustLedger.Publisher.ReadStatus` | proxyshop_support/trust_ledger.py:256-269 | delivered and lost add up to the publishes, and the last failure is the last one |
| `TrustLedger.Conserved` | proxyshop_support/trust_ledger.py:237-300 | every publish was delivered or lost |
| `TrustLedger.Account` | proxyshop_support/trust_ledger.py:272-300 | ERROR lines exceed INFO lines by one exactly during an outage and alternate with them; the outages reported plus the current one are what was lost |

## Left out

- CatalogWindow.LazyIsEager: goes one way for a positive slack on arbitrary stores. Whether the lists differ there depends on which stale keys a run meets within 1e-12 of the best fresh one; for the stores the program builds there is no such condition (`CatalogExact.BuiltWindowIsExact`).
- CatalogWindow.WindowOrder: the binary heap's array layout is not modelled; the heap is a set from which the least pair is taken.
- StoreCatalog.RankedOrder: the base score of a product is a number given per ref; its sum over the weighted terms is not modelled.
- StoreCatalog.TermWeights: `log` enters as any function that does not fall and reaches 0.69 at 2 and 1.09 at 3, and floating-point rounding is not modelled.
- RouteWalk.RoutesOfFile: the service, file and line fields of a route are not modelled.
- RouteCensus.CensusComplete: the AST is statements and expressions as the walk tells them apart, and nodes are distinct objects.
- RouteRebinding.ReportedIsLive: `global`, `nonlocal`, star imports and assignments made by code outside the body are not modelled, and every branch may be taken, every loop run any number of times. A statement of the body itself that copies a name copies its value; inside a block what a copy or any other expression yields is left to the run, so there the condition may fail where the values happen to be right.
- RouteCensus.SilentlyMissed: speaks of attributes; a route table reached by `getattr` has none.
- RouteConstants.EvaluatorAdequate: the parse cache and the file system are a map of modules; Python's full expression grammar is the shapes the evaluator reads and one constructor for all others.
- LockProgress.CanGetInIff: says a way in exists, in which a wait may time out at any try (when it does is `Neo4jLock.WaitForFlock`); that the scheduler and the kernel take it is not modelled, nor is fairness among waiters.
- LockSystem.RunKeeps: `fork` while a lock is held and a report callback that re-enters the lock are not modelled.
- Neo4jLock.WaitForFlock: what is written to stderr while waiting is only counted.
- Neo4jLock.HoldAccounts: writing, rotating and summarising the lock log is not modelled.
- Embedding.ExactBlend: floating-point rounding is not modelled, and the blend is not compared with the entity resolver's `text_similarity`, which aligns words by trigrams and is no inner product of bags.
- Embedding.LexicalEmbed: Unicode folding and splitting are one uninterpreted function from texts to words; `hash_embed` is not modelled.
- RedisRuns.NonInterference: commands that leave the connection's database (SELECT, SWAPDB, COPY with DB), `raw`, pattern subscriptions, transactions, and the replies of PUBLISH and of commands without keys are not modelled; each worker has one client.
- WorkerIsolation.ExecuteCommand: `str.upper` and `str.startswith` are modelled on ASCII; byte-string keys are taken as decoded.
- WorkerIsolation.Admission: reading the ceiling from the server and the unreadable-ceiling warning are an optional number; parsing `$PROXYSHOP_WORKER` is not modelled.
- DbReclaim.ParseProtect: whitespace and digits are ASCII.
- DbSweep.Sweep: sizes and names of the listing are read at its own statement; SQL errors other than a missing or busy database are not modelled, a `Candidate` is a value rather than an object, and the lease command is an optional set.
- DbSweep.Reclaim: argument parsing, the two database counts, the report that is printed and the exit status of a failed connection are not modelled.
- ApprovalPins.MatcherAdequate: whitespace, letters and `lower()` are ASCII.
- ApprovalRoundTrip.RoundTripIff: is stated for a document without pins of its own outside the block.
- ApprovalGate.Tree.RecordApproval: paths are literal keys, so one file under two spellings is two files; the approver's name check, the manifest's schema check and the record's wording are parameters, and a golden set that is JSON but no object is refused like one that is no JSON.
- ProcessSeams.Process.TakeSnapshot: anything that is neither nothing nor a dictionary counts as no mapping; that `dict()` also takes an iterable of pairs is not modelled.
- PostgresDsn.PasswordLaw: `urlsplit`'s removal of tabs, newlines and leading control characters, and its refusal of unbalanced brackets, are not modelled; a password is its UTF-8 bytes.
- PostgresDsn.RoleDsnDatabase: unknown roles cannot be written in the model, so the `KeyError` is left out, as is creating the database.
- TrustLedger.Publisher.PublishOne: the HTTP client, the timeout and the wording of the two log lines are not modelled, and `describe_failure` is part of the outcome.
- The auction, the bandit, trust scoring, the hash-chained ledger, the services and the demo driver are outside this model.
- Coverage evidence for routes (`driven_split`, URL expansion, contract divergence) is a heuristic and is left out.
