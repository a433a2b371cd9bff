// proxyshop_support/neo4j_lock.py: one kernel flock per process and path, however many nested
// acquisitions stand on it. Any number of processes and threads interleave one step at a time over
// any number of lock paths; the kernel's lock table, crashes and the passing of time are environment.
module LockSystem {
  import opened Prelude

  type Pid = nat

  type Tid = nat

  datatype Path = Path(name: string)

  /**
   * Where a thread stands in the module. `Entering` and `Leaving` wait for `_MUTEX`; every later
   * state up to the return holds it, including the whole contended wait (`Trying`).
   */
  datatype Pc =
    | Running
    | Entering(path: Path)
    | Checking(path: Path)
    | Trying(path: Path)
    | Won(path: Path)
    | Entered(path: Path)
    | Leaving(path: Path)
    | Dropping(path: Path)
    | Unlocking(path: Path)
    | Done

  predicate InMutex(pc: Pc) {
    !pc.Running? && !pc.Entering? && !pc.Leaving?
  }

  /** `blocks`: the `with neo4j_flock(...)` bodies this thread is inside of. */
  datatype Thread = Thread(pc: Pc, blocks: multiset<Path>)

  /** `held` is `_HELD`: path to depth. */
  datatype Process = Process(held: map<Path, nat>, mutex: Option<Tid>, threads: map<Tid, Thread>)

  datatype System = System(kernel: map<Path, Pid>, procs: map<Pid, Process>)

  datatype Op =
    | Begin(path: Path)
    | TakeMutex
    | Look
    | Try(free: bool)
    | GiveUp
    | Stamp
    | StampFails
    | Return
    | EndBlock(path: Path)
    | Drop
    | Unlock

  datatype Effect = Nothing | Takes(path: Path) | Frees(path: Path)

  // ---------------------------------------------------------------------------------
  // One step of one thread

  /** What a step makes of its thread, of `_HELD` and of the kernel. */
  datatype Move = Move(thread: Thread, held: map<Path, nat>, effect: Effect)

  function MoveOf(th: Thread, held: map<Path, nat>, op: Op): Option<Move> {
    match (op, th.pc)
    case (Begin(path), Running) => Some(Move(th.(pc := Entering(path)), held, Nothing))
    case (TakeMutex, Entering(path)) => Some(Move(th.(pc := Checking(path)), held, Nothing))
    case (TakeMutex, Leaving(path)) => Some(Move(th.(pc := Dropping(path)), held, Nothing))
    case (Look, Checking(path)) =>
      if path in held then Some(Move(th.(pc := Entered(path)), held[path := held[path] + 1], Nothing))
      else Some(Move(th.(pc := Trying(path)), held, Nothing))
    case (Try(free), Trying(path)) =>
      if free then Some(Move(th.(pc := Won(path)), held, Takes(path))) else Some(Move(th, held, Nothing))
    case (GiveUp, Trying(path)) => Some(Move(th.(pc := Done), held, Nothing))
    case (Stamp, Won(path)) => Some(Move(th.(pc := Entered(path)), held[path := 1], Nothing))
    case (StampFails, Won(path)) => Some(Move(th.(pc := Done), held, Frees(path)))
    case (Return, Entered(path)) => Some(Move(Thread(Running, th.blocks + multiset{path}), held, Nothing))
    case (Return, Done) => Some(Move(th.(pc := Running), held, Nothing))
    case (EndBlock(path), Running) =>
      if path in th.blocks then Some(Move(Thread(Leaving(path), th.blocks - multiset{path}), held, Nothing)) else None
    case (Drop, Dropping(path)) =>
      if path !in held then Some(Move(th.(pc := Done), held, Nothing))
      else if held[path] > 1 then Some(Move(th.(pc := Done), held[path := held[path] - 1], Nothing))
      else Some(Move(th.(pc := Unlocking(path)), held - {path}, Nothing))
    case (Unlock, Unlocking(path)) => Some(Move(th.(pc := Done), held, Frees(path)))
    case _ => None
  }

  /** `_MUTEX` is taken on the way in, when it is free, and given back on the way out. */
  function MutexAfter(mutex: Option<Tid>, t: Tid, before: Pc, after: Pc): Option<Option<Tid>> {
    if InMutex(after) then if InMutex(before) || mutex.None? then Some(Some(t)) else None
    else if InMutex(before) then Some(None)
    else Some(mutex)
  }

  /** Step `op` of thread `t`; none when it is not enabled. */
  function Local(pr: Process, t: Tid, op: Op): Option<(Process, Effect)>
    requires t in pr.threads
  {
    var th := pr.threads[t];
    match MoveOf(th, pr.held, op)
    case None => None
    case Some(move) =>
      match MutexAfter(pr.mutex, t, th.pc, move.thread.pc)
      case None => None
      case Some(mutex) => Some((Process(move.held, mutex, pr.threads[t := move.thread]), move.effect))
  }

  // ---------------------------------------------------------------------------------
  // What every process keeps

  /** The blocks on `path` a thread has open: entered or being entered, and not yet given back. */
  function OpenBy(th: Thread, path: Path): nat {
    th.blocks[path] + (if th.pc in {Entered(path), Leaving(path), Dropping(path)} then 1 else 0)
  }

  ghost function OpenAmong(threads: map<Tid, Thread>, ts: set<Tid>, path: Path): nat
    decreases |ts|
  {
    if ts == {} then 0
    else
      var t :| t in ts;
      (if t in threads then OpenBy(threads[t], path) else 0) + OpenAmong(threads, ts - {t}, path)
  }

  /** `neo4j_flock` blocks on `path` that a process has open. */
  ghost function Open(pr: Process, path: Path): nat {
    OpenAmong(pr.threads, pr.threads.Keys, path)
  }

  lemma {:induction false} OpenPick(threads: map<Tid, Thread>, ts: set<Tid>, path: Path, t: Tid)
    requires t in ts
    ensures OpenAmong(threads, ts, path)
         == (if t in threads then OpenBy(threads[t], path) else 0) + OpenAmong(threads, ts - {t}, path)
    decreases |ts|
  {
    var u :| u in ts && OpenAmong(threads, ts, path)
      == (if u in threads then OpenBy(threads[u], path) else 0) + OpenAmong(threads, ts - {u}, path);
    if u != t {
      OpenPick(threads, ts - {u}, path, t);
      OpenPick(threads, ts - {t}, path, u);
      assert ts - {u} - {t} == ts - {t} - {u};
    }
  }

  lemma {:induction false} OpenSame(threads: map<Tid, Thread>, threads': map<Tid, Thread>, ts: set<Tid>, path: Path)
    requires forall t | t in ts :: t in threads && t in threads' && threads[t] == threads'[t]
    ensures OpenAmong(threads, ts, path) == OpenAmong(threads', ts, path)
    decreases |ts|
  {
    if ts != {} {
      var t :| t in ts;
      OpenPick(threads, ts, path, t);
      OpenPick(threads', ts, path, t);
      OpenSame(threads, threads', ts - {t}, path);
    }
  }

  /** One thread's move changes the process's open count by that thread's own change. */
  lemma OpenMoves(pr: Process, t: Tid, th: Thread, path: Path)
    requires t in pr.threads
    ensures Open(pr.(threads := pr.threads[t := th]), path) == Open(pr, path) - OpenBy(pr.threads[t], path) +
      OpenBy(th, path)
  {
    var threads' := pr.threads[t := th];
    assert threads'.Keys == pr.threads.Keys;
    OpenPick(pr.threads, pr.threads.Keys, path, t);
    OpenPick(threads', pr.threads.Keys, path, t);
    OpenSame(pr.threads, threads', pr.threads.Keys - {t}, path);
  }

  function DepthIn(held: map<Path, nat>, path: Path): nat {
    if path in held then held[path] else 0
  }

  /** `held_depth` */
  function Depth(pr: Process, path: Path): nat {
    DepthIn(pr.held, path)
  }

  /** A path whose kernel lock is taken while `_HELD` does not say so. */
  function InFlightOf(pc: Pc): set<Path> {
    if pc.Won? || pc.Unlocking? then {pc.path} else {}
  }

  /** There is such a path only inside the mutex. */
  function InFlight(pr: Process): set<Path> {
    if pr.mutex.Some? && pr.mutex.value in pr.threads then InFlightOf(pr.threads[pr.mutex.value].pc) else {}
  }

  ghost predicate MutexKept(pr: Process) {
    && (pr.mutex.Some? ==> pr.mutex.value in pr.threads)
    && (forall t | t in pr.threads :: InMutex(pr.threads[t].pc) <==> pr.mutex == Some(t))
  }

  ghost predicate DepthKept(pr: Process) {
    && (forall path | path in pr.held :: pr.held[path] > 0)
    && (forall path :: Depth(pr, path) == Open(pr, path))
  }

  /** `owned`: the paths whose kernel lock belongs to the process. */
  ghost predicate Kept(owned: set<Path>, pr: Process) {
    && MutexKept(pr)
    && DepthKept(pr)
    && owned == pr.held.Keys + InFlight(pr)
    && InFlight(pr) !! pr.held.Keys
    && (forall t | t in pr.threads && pr.threads[t].pc.Trying? :: pr.threads[t].pc.path !in pr.held)
  }

  ghost function OwnedAfter(owned: set<Path>, effect: Effect): set<Path> {
    match effect
    case Nothing => owned
    case Takes(path) => owned + {path}
    case Frees(path) => owned - {path}
  }

  lemma LocalMutex(pr: Process, t: Tid, op: Op)
    requires t in pr.threads && MutexKept(pr) && Local(pr, t, op).Some?
    ensures MutexKept(Local(pr, t, op).value.0)
  {
    hide MoveOf;
  }

  /** A thread that is giving a block back still has it open, so `_HELD` has the path. */
  lemma Dropped(pr: Process, t: Tid)
    requires t in pr.threads && DepthKept(pr) && pr.threads[t].pc.Dropping?
    ensures pr.threads[t].pc.path in pr.held
  {
    var path := pr.threads[t].pc.path;
    OpenPick(pr.threads, pr.threads.Keys, path, t);
    assert Depth(pr, path) == Open(pr, path) > 0;
  }

  /** A path being tried, or just won, is not in `_HELD`; a path being dropped is. */
  ghost predicate Sensible(th: Thread, held: map<Path, nat>) {
    && (th.pc.Trying? || th.pc.Won? || th.pc.Unlocking? ==> th.pc.path !in held)
    && (th.pc.Dropping? ==> th.pc.path in held)
    && (forall path | path in held :: held[path] > 0)
  }

  /** A move changes the depth of a path by what it changes of the thread's own open blocks. */
  ghost predicate DepthMoves(th: Thread, held: map<Path, nat>, move: Move, path: Path) {
    DepthIn(move.held, path) - OpenBy(move.thread, path) == DepthIn(held, path) - OpenBy(th, path)
  }

  lemma EnterDepth(th: Thread, held: map<Path, nat>, op: Op, path: Path)
    requires MoveOf(th, held, op).Some? && Sensible(th, held) && (op.Look? || op.Stamp?)
    ensures DepthMoves(th, held, MoveOf(th, held, op).value, path)
  {
  }

  lemma ReturnDepth(th: Thread, held: map<Path, nat>, op: Op, path: Path)
    requires MoveOf(th, held, op).Some? && Sensible(th, held) && op.Return?
    ensures DepthMoves(th, held, MoveOf(th, held, op).value, path)
  {
  }

  lemma EndDepth(th: Thread, held: map<Path, nat>, op: Op, path: Path)
    requires MoveOf(th, held, op).Some? && Sensible(th, held) && op.EndBlock?
    ensures DepthMoves(th, held, MoveOf(th, held, op).value, path)
  {
  }

  lemma DropDepth(th: Thread, held: map<Path, nat>, op: Op, path: Path)
    requires MoveOf(th, held, op).Some? && Sensible(th, held) && op.Drop?
    ensures DepthMoves(th, held, MoveOf(th, held, op).value, path)
  {
  }

  lemma SameDepth(th: Thread, held: map<Path, nat>, op: Op, path: Path)
    requires MoveOf(th, held, op).Some? && Sensible(th, held) && !op.Look? && !op.Stamp? && !op.Return?
      && !op.EndBlock? && !op.Drop?
    ensures DepthMoves(th, held, MoveOf(th, held, op).value, path)
  {
  }

  lemma MoveDepth(th: Thread, held: map<Path, nat>, op: Op, path: Path)
    requires MoveOf(th, held, op).Some? && Sensible(th, held)
    ensures DepthMoves(th, held, MoveOf(th, held, op).value, path)
  {
    hide *;
    if op.Look? || op.Stamp? {
      EnterDepth(th, held, op, path);
    } else if op.Return? {
      ReturnDepth(th, held, op, path);
    } else if op.EndBlock? {
      EndDepth(th, held, op, path);
    } else if op.Drop? {
      DropDepth(th, held, op, path);
    } else {
      SameDepth(th, held, op, path);
    }
  }

  lemma MovePositive(th: Thread, held: map<Path, nat>, op: Op)
    requires MoveOf(th, held, op).Some? && Sensible(th, held)
    ensures var move := MoveOf(th, held, op).value; forall q | q in move.held :: move.held[q] > 0
  {
  }

  /** A move changes what the kernel says is taken exactly as its effect announces. */
  lemma MoveOwned(th: Thread, held: map<Path, nat>, op: Op)
    requires MoveOf(th, held, op).Some? && Sensible(th, held)
    ensures var move := MoveOf(th, held, op).value;
      move.held.Keys + InFlightOf(move.thread.pc) == OwnedAfter(held.Keys + InFlightOf(th.pc), move.effect)
  {
  }

  lemma MoveApart(th: Thread, held: map<Path, nat>, op: Op)
    requires MoveOf(th, held, op).Some? && Sensible(th, held)
    ensures var move := MoveOf(th, held, op).value;
      && InFlightOf(move.thread.pc) !! move.held.Keys
      && (move.thread.pc.Trying? ==> move.thread.pc.path !in move.held)
  {
  }

  lemma MoveEffect(th: Thread, held: map<Path, nat>, op: Op)
    requires MoveOf(th, held, op).Some?
    ensures var move := MoveOf(th, held, op).value;
      && (move.effect.Frees? ==> move.effect.path in InFlightOf(th.pc))
      && (!InMutex(th.pc) ==> move.held == held && move.effect == Nothing)
  {
  }

  lemma LocalDepth(pr: Process, t: Tid, op: Op)
    requires t in pr.threads && DepthKept(pr) && Local(pr, t, op).Some? && Sensible(pr.threads[t], pr.held)
    ensures DepthKept(Local(pr, t, op).value.0)
  {
    var pr' := Local(pr, t, op).value.0;
    forall path ensures Depth(pr', path) == Open(pr', path) {
      MoveDepth(pr.threads[t], pr.held, op, path);
      OpenMoves(pr, t, pr'.threads[t], path);
      SameThreads(pr', pr.(threads := pr.threads[t := pr'.threads[t]]), path);
      assert Depth(pr, path) == Open(pr, path);
    }
    MovePositive(pr.threads[t], pr.held, op);
  }

  lemma SameThreads(a: Process, b: Process, path: Path)
    requires a.threads == b.threads
    ensures Open(a, path) == Open(b, path)
  {
  }

  lemma KeptIsSensible(owned: set<Path>, pr: Process, t: Tid)
    requires t in pr.threads && Kept(owned, pr)
    ensures Sensible(pr.threads[t], pr.held)
  {
    if pr.threads[t].pc.Dropping? {
      Dropped(pr, t);
    }
    if InMutex(pr.threads[t].pc) {
      assert pr.mutex == Some(t);
    }
  }

  lemma LocalOwned(owned: set<Path>, pr: Process, t: Tid, op: Op)
    requires t in pr.threads && MutexKept(pr) && Local(pr, t, op).Some? && Sensible(pr.threads[t], pr.held)
    requires owned == pr.held.Keys + InFlight(pr) && InFlight(pr) !! pr.held.Keys
    ensures var (pr', effect) := Local(pr, t, op).value;
      && OwnedAfter(owned, effect) == pr'.held.Keys + InFlight(pr')
      && InFlight(pr') !! pr'.held.Keys
      && (effect.Frees? ==> effect.path in owned)
  {
    MoveOwned(pr.threads[t], pr.held, op);
    MoveApart(pr.threads[t], pr.held, op);
    MoveEffect(pr.threads[t], pr.held, op);
    var (pr', effect) := Local(pr, t, op).value;
    hide MoveOf;
    if InMutex(pr.threads[t].pc) {
      assert pr.mutex == Some(t) && InFlight(pr) == InFlightOf(pr.threads[t].pc);
      assert InFlight(pr') == InFlightOf(pr'.threads[t].pc);
    } else {
      assert pr'.held == pr.held && effect == Nothing;
      assert InFlight(pr') == InFlight(pr) by {
        OutsideInFlight(pr, t, op);
      }
    }
  }

  lemma OutsideInFlight(pr: Process, t: Tid, op: Op)
    requires t in pr.threads && MutexKept(pr) && Local(pr, t, op).Some? && !InMutex(pr.threads[t].pc)
    ensures InFlight(Local(pr, t, op).value.0) == InFlight(pr)
  {
  }

  lemma LocalTrying(pr: Process, t: Tid, op: Op)
    requires t in pr.threads && MutexKept(pr) && Local(pr, t, op).Some? && Sensible(pr.threads[t], pr.held)
    requires forall u | u in pr.threads && pr.threads[u].pc.Trying? :: pr.threads[u].pc.path !in pr.held
    ensures var pr' := Local(pr, t, op).value.0;
      forall u | u in pr'.threads && pr'.threads[u].pc.Trying? :: pr'.threads[u].pc.path !in pr'.held
  {
    MoveApart(pr.threads[t], pr.held, op);
    MoveEffect(pr.threads[t], pr.held, op);
    hide MoveOf;
  }

  /** Every step keeps its process's invariant, and frees only a path the process owns. */
  lemma LocalKeeps(owned: set<Path>, pr: Process, t: Tid, op: Op)
    requires t in pr.threads && Kept(owned, pr) && Local(pr, t, op).Some?
    ensures Kept(OwnedAfter(owned, Local(pr, t, op).value.1), Local(pr, t, op).value.0)
    ensures Local(pr, t, op).value.1.Frees? ==> Local(pr, t, op).value.1.path in owned
  {
    KeptIsSensible(owned, pr, t);
    LocalMutex(pr, t, op);
    LocalDepth(pr, t, op);
    LocalOwned(owned, pr, t, op);
    LocalTrying(pr, t, op);
  }

  // ---------------------------------------------------------------------------------
  // All processes over one kernel

  /** A process may start, gain a thread, or die at any moment; dying gives its kernel locks back. */
  datatype Action = By(p: Pid, t: Tid, op: Op) | Start(p: Pid) | Spawn(p: Pid, t: Tid) | Crash(p: Pid)

  function Owned(kernel: map<Path, Pid>, p: Pid): set<Path> {
    set path | path in kernel && kernel[path] == p
  }

  function KernelAfter(kernel: map<Path, Pid>, p: Pid, effect: Effect): map<Path, Pid> {
    match effect
    case Nothing => kernel
    case Takes(path) => kernel[path := p]
    case Frees(path) => kernel - {path}
  }

  /** LOCK_EX | LOCK_NB answers "free" exactly when no process has the path. */
  predicate KernelAgrees(kernel: map<Path, Pid>, th: Thread, op: Op) {
    op.Try? && th.pc.Trying? ==> op.free == (th.pc.path !in kernel)
  }

  function Step(s: System, a: Action): Option<System> {
    match a
    case By(p, t, op) =>
      if p !in s.procs || t !in s.procs[p].threads || !KernelAgrees(s.kernel, s.procs[p].threads[t], op) then None
      else
        (match Local(s.procs[p], t, op)
         case None => None
         case Some((pr, effect)) => Some(System(KernelAfter(s.kernel, p, effect), s.procs[p := pr])))
    case Start(p) =>
      if p in s.procs then None else Some(s.(procs := s.procs[p := Process(map[], None, map[])]))
    case Spawn(p, t) =>
      if p !in s.procs || t in s.procs[p].threads then None
      else Some(s.(procs := s.procs[p := s.procs[p].(threads := s.procs[p].threads[t := Thread(Running, multiset{})])]))
    case Crash(p) =>
      if p !in s.procs then None
      else Some(System(map path | path in s.kernel && s.kernel[path] != p :: s.kernel[path], s.procs - {p}))
  }

  /** Some schedule of steps; none when one of them was not enabled. */
  function Run(s: System, actions: seq<Action>): Option<System>
    decreases |actions|
  {
    if actions == [] then Some(s)
    else
      match Step(s, actions[0])
      case None => None
      case Some(s') => Run(s', actions[1..])
  }

  ghost predicate Inv(s: System) {
    && (forall p | p in s.procs :: Kept(Owned(s.kernel, p), s.procs[p]))
    && (forall path | path in s.kernel :: s.kernel[path] in s.procs)
  }

  lemma OthersKeepOwned(kernel: map<Path, Pid>, p: Pid, q: Pid, effect: Effect)
    requires p != q
    requires effect.Takes? ==> effect.path !in kernel
    requires effect.Frees? ==> effect.path in Owned(kernel, p)
    ensures Owned(KernelAfter(kernel, p, effect), q) == Owned(kernel, q)
  {
  }

  lemma SelfOwned(kernel: map<Path, Pid>, p: Pid, effect: Effect)
    requires effect.Frees? ==> effect.path in Owned(kernel, p)
    ensures Owned(KernelAfter(kernel, p, effect), p) == OwnedAfter(Owned(kernel, p), effect)
  {
  }

  /** A flock is only ever taken when it is free. */
  lemma TakesFree(kernel: map<Path, Pid>, pr: Process, t: Tid, op: Op)
    requires t in pr.threads && KernelAgrees(kernel, pr.threads[t], op) && Local(pr, t, op).Some?
    ensures Local(pr, t, op).value.1.Takes? ==> Local(pr, t, op).value.1.path !in kernel
  {
  }

  lemma ByKeeps(s: System, p: Pid, t: Tid, op: Op)
    requires Inv(s) && Step(s, By(p, t, op)).Some?
    ensures Inv(Step(s, By(p, t, op)).value)
  {
    var pr := s.procs[p];
    var s' := Step(s, By(p, t, op)).value;
    var effect := Local(pr, t, op).value.1;
    TakesFree(s.kernel, pr, t, op);
    LocalKeeps(Owned(s.kernel, p), pr, t, op);
    SelfOwned(s.kernel, p, effect);
    forall q | q in s.procs && q != p ensures Owned(s'.kernel, q) == Owned(s.kernel, q) {
      OthersKeepOwned(s.kernel, p, q, effect);
    }
    hide Kept, Local, KernelAgrees, OwnedAfter, Owned;
  }

  lemma SpawnKeeps(owned: set<Path>, pr: Process, t: Tid)
    requires Kept(owned, pr) && t !in pr.threads
    ensures Kept(owned, pr.(threads := pr.threads[t := Thread(Running, multiset{})]))
  {
    var pr' := pr.(threads := pr.threads[t := Thread(Running, multiset{})]);
    forall path ensures Depth(pr', path) == Open(pr', path) {
      assert Depth(pr, path) == Open(pr, path);
      OpenPick(pr'.threads, pr'.threads.Keys, path, t);
      assert pr'.threads.Keys - {t} == pr.threads.Keys;
      OpenSame(pr.threads, pr'.threads, pr.threads.Keys, path);
    }
  }

  lemma StartKeeps()
    ensures Kept({}, Process(map[], None, map[]))
  {
  }

  lemma CrashKeeps(s: System, p: Pid)
    requires Inv(s) && p in s.procs
    ensures Inv(Step(s, Crash(p)).value)
  {
    var s' := Step(s, Crash(p)).value;
    hide Kept;
    forall q | q in s'.procs ensures Kept(Owned(s'.kernel, q), s'.procs[q]) {
      assert Owned(s'.kernel, q) == Owned(s.kernel, q);
    }
  }

  lemma StepKeeps(s: System, a: Action)
    requires Inv(s) && Step(s, a).Some?
    ensures Inv(Step(s, a).value)
  {
    match a
    case By(p, t, op) => ByKeeps(s, p, t, op);
    case Crash(p) => CrashKeeps(s, p);
    case Start(p) =>
      StartKeeps();
      assert Owned(s.kernel, p) == {};
      hide Kept;
    case Spawn(p, t) =>
      SpawnKeeps(Owned(s.kernel, p), s.procs[p], t);
      hide Kept;
  }

  lemma {:induction false} RunKeeps(s: System, actions: seq<Action>)
    requires Inv(s) && Run(s, actions).Some?
    ensures Inv(Run(s, actions).value)
    decreases |actions|
  {
    hide Inv, Step;
    if actions != [] {
      StepKeeps(s, actions[0]);
      RunKeeps(Step(s, actions[0]).value, actions[1..]);
    }
  }

  // ---------------------------------------------------------------------------------
  // Safety over every run

  const EMPTY: System := System(map[], map[])

  /** No two processes ever have blocks open on one path. */
  lemma MutualExclusion(actions: seq<Action>, p: Pid, q: Pid, path: Path)
    requires Run(EMPTY, actions).Some?
    requires p in Run(EMPTY, actions).value.procs && q in Run(EMPTY, actions).value.procs
    requires Open(Run(EMPTY, actions).value.procs[p], path) > 0 && Open(Run(EMPTY, actions).value.procs[q], path) > 0
    ensures p == q && path in Run(EMPTY, actions).value.kernel && Run(EMPTY, actions).value.kernel[path] == p
  {
    RunKeeps(EMPTY, actions);
    var s := Run(EMPTY, actions).value;
    OpenIsOwned(s, p, path);
    OpenIsOwned(s, q, path);
  }

  lemma OpenIsOwned(s: System, p: Pid, path: Path)
    requires Inv(s) && p in s.procs && Open(s.procs[p], path) > 0
    ensures path in Owned(s.kernel, p)
  {
    assert Kept(Owned(s.kernel, p), s.procs[p]);
    assert Depth(s.procs[p], path) == Open(s.procs[p], path);
  }

  /**
   * Whenever no thread is inside the mutex, `_HELD` has a path exactly when the kernel lock is this
   * process's, and its depth is the number of blocks its threads have open on it.
   */
  lemma HeldIsOwned(actions: seq<Action>, p: Pid, path: Path)
    requires Run(EMPTY, actions).Some? && p in Run(EMPTY, actions).value.procs
    requires Run(EMPTY, actions).value.procs[p].mutex.None?
    ensures var s := Run(EMPTY, actions).value;
      && (path in s.procs[p].held <==> path in s.kernel && s.kernel[path] == p)
      && Depth(s.procs[p], path) == Open(s.procs[p], path)
  {
    RunKeeps(EMPTY, actions);
    var s := Run(EMPTY, actions).value;
    assert Kept(Owned(s.kernel, p), s.procs[p]);
    assert path in Owned(s.kernel, p) <==> path in s.procs[p].held;
  }

  /** A re-entrant acquisition never asks the kernel: a path in `_HELD` is never being tried. */
  lemma NeverTriesOwnLock(actions: seq<Action>, p: Pid, t: Tid)
    requires Run(EMPTY, actions).Some? && p in Run(EMPTY, actions).value.procs
    requires t in Run(EMPTY, actions).value.procs[p].threads
    requires Run(EMPTY, actions).value.procs[p].threads[t].pc.Trying?
    ensures var s := Run(EMPTY, actions).value; var path := s.procs[p].threads[t].pc.path;
      path in s.kernel ==> s.kernel[path] != p
  {
    RunKeeps(EMPTY, actions);
    var s := Run(EMPTY, actions).value;
    assert Kept(Owned(s.kernel, p), s.procs[p]);
    var path := s.procs[p].threads[t].pc.path;
    assert s.procs[p].mutex == Some(t) && InFlight(s.procs[p]) == {};
    assert Owned(s.kernel, p) == s.procs[p].held.Keys;
  }

  // ---------------------------------------------------------------------------------
  // A timed-out acquisition changes nothing

  /** The acquisition is under way and has not got the flock: looking, polling, or given up. */
  predicate Failing(pc: Pc, path: Path) {
    pc == Checking(path) || pc == Trying(path) || pc == Done
  }

  /** Along the schedule, thread `t` of `p` stays in an acquisition of `path` that does not get the flock. */
  ghost predicate StaysFailing(s: System, actions: seq<Action>, p: Pid, t: Tid, path: Path)
    requires Run(s, actions).Some?
    decreases |actions|
  {
    && p in s.procs && t in s.procs[p].threads && Failing(s.procs[p].threads[t].pc, path)
    && (actions == [] || StaysFailing(Step(s, actions[0]).value, actions[1..], p, t, path))
  }

  ghost predicate SameHoldings(s: System, s': System, p: Pid, t: Tid) {
    && p in s.procs && p in s'.procs && t in s.procs[p].threads && t in s'.procs[p].threads
    && s'.procs[p].held == s.procs[p].held
    && Owned(s'.kernel, p) == Owned(s.kernel, p)
    && s'.procs[p].threads[t].blocks == s.procs[p].threads[t].blocks
  }

  lemma MoveOfFailing(th: Thread, held: map<Path, nat>, op: Op, path: Path)
    requires MoveOf(th, held, op).Some?
    requires Failing(th.pc, path) && Failing(MoveOf(th, held, op).value.thread.pc, path)
    ensures var move := MoveOf(th, held, op).value;
      move.held == held && move.effect == Nothing && move.thread.blocks == th.blocks
  {
  }

  lemma MoveOutside(th: Thread, held: map<Path, nat>, op: Op)
    requires MoveOf(th, held, op).Some? && !InMutex(th.pc)
    ensures MoveOf(th, held, op).value.held == held && MoveOf(th, held, op).value.effect == Nothing
  {
  }

  lemma FailingLocal(owned: set<Path>, pr: Process, t: Tid, u: Tid, op: Op, path: Path)
    requires Kept(owned, pr) && t in pr.threads && u in pr.threads && Local(pr, u, op).Some?
    requires Failing(pr.threads[t].pc, path) && Failing(Local(pr, u, op).value.0.threads[t].pc, path)
    ensures var (pr', effect) := Local(pr, u, op).value;
      pr'.held == pr.held && effect == Nothing && pr'.threads[t].blocks == pr.threads[t].blocks
  {
    assert pr.mutex == Some(t);
    if u == t {
      MoveOfFailing(pr.threads[t], pr.held, op, path);
    } else {
      MoveOutside(pr.threads[u], pr.held, op);
    }
  }

  lemma FailingBy(s: System, q: Pid, u: Tid, op: Op, p: Pid, t: Tid, path: Path)
    requires Inv(s) && Step(s, By(q, u, op)).Some? && p in s.procs && t in s.procs[p].threads
    requires Failing(s.procs[p].threads[t].pc, path)
      && Failing(Step(s, By(q, u, op)).value.procs[p].threads[t].pc, path)
    ensures SameHoldings(s, Step(s, By(q, u, op)).value, p, t)
  {
    if q == p {
      FailingLocal(Owned(s.kernel, p), s.procs[p], t, u, op, path);
    } else {
      TakesFree(s.kernel, s.procs[q], u, op);
      LocalKeeps(Owned(s.kernel, q), s.procs[q], u, op);
      hide Local, Kept, KernelAgrees;
      OthersKeepOwned(s.kernel, q, p, Local(s.procs[q], u, op).value.1);
    }
  }

  lemma FailingStep(s: System, a: Action, p: Pid, t: Tid, path: Path)
    requires Inv(s) && Step(s, a).Some? && p in s.procs && t in s.procs[p].threads
      && Failing(s.procs[p].threads[t].pc, path)
    requires var s' := Step(s, a).value;
      p in s'.procs && t in s'.procs[p].threads && Failing(s'.procs[p].threads[t].pc, path)
    ensures SameHoldings(s, Step(s, a).value, p, t)
  {
    hide Inv, Failing, Local, KernelAgrees;
    match a
    case By(q, u, op) => FailingBy(s, q, u, op, p, t, path);
    case Crash(q) =>
      assert Owned(Step(s, a).value.kernel, p) == Owned(s.kernel, p);
    case Start(q) =>
    case Spawn(q, u) =>
  }

  lemma FirstFailing(s: System, actions: seq<Action>, p: Pid, t: Tid, path: Path)
    requires Run(s, actions).Some? && StaysFailing(s, actions, p, t, path)
    ensures p in s.procs && t in s.procs[p].threads && Failing(s.procs[p].threads[t].pc, path)
  {
  }

  /**
   * However the other threads and processes run meanwhile, from the moment an acquisition takes the
   * mutex until it gives up without the flock, its process's `_HELD` and kernel locks and its own
   * open blocks are what they were.
   */
  lemma {:induction false} TimeoutChangesNothing(s: System, actions: seq<Action>, p: Pid, t: Tid, path: Path)
    requires Inv(s) && Run(s, actions).Some? && StaysFailing(s, actions, p, t, path)
    ensures SameHoldings(s, Run(s, actions).value, p, t)
    decreases |actions|
  {
    if actions != [] {
      var s1 := Step(s, actions[0]).value;
      assert StaysFailing(s1, actions[1..], p, t, path);
      FirstFailing(s1, actions[1..], p, t, path);
      hide Inv, Step, Failing;
      StepKeeps(s, actions[0]);
      FailingStep(s, actions[0], p, t, path);
      TimeoutChangesNothing(s1, actions[1..], p, t, path);
    }
  }
}
