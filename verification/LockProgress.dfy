// proxyshop_support/neo4j_lock.py: what the lock lets a thread do. Nothing in LockSystem's safety laws would notice a
// lock that nobody ever gets; here is who gets it, when, and that what was taken is given back.
module LockProgress {
  import opened Prelude
  import opened LockSystem

  // ---------------------------------------------------------------------------------
  // One thread running alone: all it sees and changes

  datatype View = View(kernel: map<Path, Pid>, held: map<Path, nat>, mutex: Option<Tid>, thread: Thread)

  function StepView(v: View, p: Pid, t: Tid, op: Op): Option<View> {
    if !KernelAgrees(v.kernel, v.thread, op) then None
    else
      match MoveOf(v.thread, v.held, op)
      case None => None
      case Some(move) =>
        match MutexAfter(v.mutex, t, v.thread.pc, move.thread.pc)
        case None => None
        case Some(mutex) => Some(View(KernelAfter(v.kernel, p, move.effect), move.held, mutex, move.thread))
  }

  function RunView(v: View, p: Pid, t: Tid, ops: seq<Op>): Option<View>
    decreases |ops|
  {
    if ops == [] then Some(v)
    else
      match StepView(v, p, t, ops[0])
      case None => None
      case Some(v') => RunView(v', p, t, ops[1..])
  }

  function ViewOf(s: System, p: Pid, t: Tid): View
    requires p in s.procs && t in s.procs[p].threads
  {
    View(s.kernel, s.procs[p].held, s.procs[p].mutex, s.procs[p].threads[t])
  }

  /** `s` but for what thread `t` of process `p` sees. */
  function Put(s: System, p: Pid, t: Tid, v: View): System
    requires p in s.procs
  {
    System(v.kernel, s.procs[p := Process(v.held, v.mutex, s.procs[p].threads[t := v.thread])])
  }

  /** The steps `ops` of one thread, nothing in between. */
  function Alone(p: Pid, t: Tid, ops: seq<Op>): (actions: seq<Action>)
    ensures |actions| == |ops| && forall i | 0 <= i < |ops| :: actions[i] == By(p, t, ops[i])
  {
    seq(|ops|, i requires 0 <= i < |ops| => By(p, t, ops[i]))
  }

  lemma StepPut(s: System, p: Pid, t: Tid, v: View, op: Op)
    requires p in s.procs
    ensures StepView(v, p, t, op).Some? ==>
      Step(Put(s, p, t, v), By(p, t, op)) == Some(Put(s, p, t, StepView(v, p, t, op).value))
  {
    hide MoveOf, MutexAfter, KernelAgrees, KernelAfter;
    if StepView(v, p, t, op).Some? {
      var v' := StepView(v, p, t, op).value;
      var threads: map<Tid, Thread> := s.procs[p].threads;
      assert threads[t := v.thread][t := v'.thread] == threads[t := v'.thread];
      var pr, pr' := Put(s, p, t, v).procs[p], Put(s, p, t, v').procs[p];
      assert Put(s, p, t, v).procs[p := pr'] == s.procs[p := pr'];
    }
  }

  lemma {:induction false} RunPut(s: System, p: Pid, t: Tid, v: View, ops: seq<Op>)
    requires p in s.procs && RunView(v, p, t, ops).Some?
    ensures Run(Put(s, p, t, v), Alone(p, t, ops)) == Some(Put(s, p, t, RunView(v, p, t, ops).value))
    decreases |ops|
  {
    hide Put, Step, StepView;
    if ops == [] {
    } else {
      StepPut(s, p, t, v, ops[0]);
      RunPut(s, p, t, StepView(v, p, t, ops[0]).value, ops[1..]);
      assert Alone(p, t, ops)[1..] == Alone(p, t, ops[1..]);
    }
  }

  /** A thread running alone changes what it sees, as it sees it, and nothing else. */
  lemma RunAlone(s: System, p: Pid, t: Tid, ops: seq<Op>)
    requires p in s.procs && t in s.procs[p].threads && RunView(ViewOf(s, p, t), p, t, ops).Some?
    ensures Run(s, Alone(p, t, ops)) == Some(Put(s, p, t, RunView(ViewOf(s, p, t), p, t, ops).value))
  {
    RunPut(s, p, t, ViewOf(s, p, t), ops);
    hide Run, RunView, Alone;
    assert s.procs[p].threads[t := s.procs[p].threads[t]] == s.procs[p].threads;
    assert s.procs[p := s.procs[p]] == s.procs;
    assert Put(s, p, t, ViewOf(s, p, t)) == s;
  }

  lemma Then(v: View, v': View, p: Pid, t: Tid, op: Op, rest: seq<Op>)
    requires StepView(v, p, t, op) == Some(v')
    ensures RunView(v, p, t, [op] + rest) == RunView(v', p, t, rest)
  {
    hide StepView;
    assert ([op] + rest)[1..] == rest;
  }

  lemma AtRest(v: View, p: Pid, t: Tid)
    ensures RunView(v, p, t, []) == Some(v)
  {
  }

  // ---------------------------------------------------------------------------------
  // The steps one by one

  /** `with _MUTEX`, on the way in and on the way back. */
  lemma Approach(v: View, p: Pid, t: Tid, path: Path, rest: seq<Op>)
    requires v.mutex.None? && v.thread.pc.Running?
    ensures RunView(v, p, t, [Begin(path), TakeMutex] + rest)
         == RunView(v.(mutex := Some(t), thread := v.thread.(pc := Checking(path))), p, t, rest)
  {
    var v1 := v.(thread := v.thread.(pc := Entering(path)));
    var v2 := v1.(mutex := Some(t), thread := v.thread.(pc := Checking(path)));
    assert StepView(v, p, t, Begin(path)) == Some(v1);
    assert StepView(v1, p, t, TakeMutex) == Some(v2);
    hide StepView, RunView;
    assert [Begin(path), TakeMutex] + rest == [Begin(path)] + ([TakeMutex] + rest);
    Then(v, v1, p, t, Begin(path), [TakeMutex] + rest);
    Then(v1, v2, p, t, TakeMutex, rest);
  }

  lemma Withdraw(v: View, p: Pid, t: Tid, path: Path, rest: seq<Op>)
    requires v.mutex.None? && v.thread.pc.Running? && path in v.thread.blocks
    ensures RunView(v, p, t, [EndBlock(path), TakeMutex] + rest)
         == RunView(v.(mutex := Some(t), thread := Thread(Dropping(path), v.thread.blocks - multiset{path})), p, t,
           rest)
  {
    var v1 := v.(thread := Thread(Leaving(path), v.thread.blocks - multiset{path}));
    var v2 := v1.(mutex := Some(t), thread := v1.thread.(pc := Dropping(path)));
    assert StepView(v, p, t, EndBlock(path)) == Some(v1);
    assert StepView(v1, p, t, TakeMutex) == Some(v2);
    hide StepView, RunView;
    assert [EndBlock(path), TakeMutex] + rest == [EndBlock(path)] + ([TakeMutex] + rest);
    Then(v, v1, p, t, EndBlock(path), [TakeMutex] + rest);
    Then(v1, v2, p, t, TakeMutex, rest);
  }

  /** Out of the mutex with the block entered, or with nothing to show for it. */
  lemma Depart(v: View, p: Pid, t: Tid)
    requires v.thread.pc.Entered? || v.thread.pc.Done?
    ensures RunView(v, p, t, [Return])
         == Some(v.(mutex := None, thread := Thread(Running,
              v.thread.blocks + if v.thread.pc.Entered? then multiset{v.thread.pc.path} else multiset{})))
  {
    var v' := StepView(v, p, t, Return).value;
    assert StepView(v, p, t, Return) == Some(v');
    assert v.thread.blocks + multiset{} == v.thread.blocks;
    Then(v, v', p, t, Return, []);
    assert [Return] + [] == [Return];
    AtRest(v', p, t);
    hide RunView;
  }

  /** One step inside the mutex, and then the others. */
  lemma Inside(v: View, v': View, p: Pid, t: Tid, op: Op, rest: seq<Op>, ops: seq<Op>)
    requires ops == [op] + rest && StepView(v, p, t, op) == Some(v')
    ensures RunView(v, p, t, ops) == RunView(v', p, t, rest)
  {
    Then(v, v', p, t, op, rest);
  }

  // ---------------------------------------------------------------------------------
  // Whole acquisitions and releases

  function OutermostEntry(path: Path): seq<Op> {
    [Begin(path), TakeMutex] + [Look, Try(true), Stamp, Return]
  }

  function NestedEntry(path: Path): seq<Op> {
    [Begin(path), TakeMutex] + [Look, Return]
  }

  function OutermostExit(path: Path): seq<Op> {
    [EndBlock(path), TakeMutex] + [Drop, Unlock, Return]
  }

  function NestedExit(path: Path): seq<Op> {
    [EndBlock(path), TakeMutex] + [Drop, Return]
  }

  function Refusals(n: nat): seq<Op> {
    if n == 0 then [GiveUp, Return] else [Try(false)] + Refusals(n - 1)
  }

  /** `n` polls of a lock someone else holds, then the timeout. */
  function TimedOut(path: Path, n: nat): seq<Op> {
    [Begin(path), TakeMutex] + ([Look] + Refusals(n))
  }

  /** A thread outside the module, in a process none of whose threads is inside it. */
  predicate Outside(v: View) {
    v.mutex.None? && v.thread.pc.Running?
  }

  lemma OutermostEntryView(v: View, p: Pid, t: Tid, path: Path)
    requires Outside(v) && path !in v.held && path !in v.kernel
    ensures RunView(v, p, t, OutermostEntry(path))
         == Some(View(v.kernel[path := p], v.held[path := 1], None, Thread(Running, v.thread.blocks + multiset{path})))
  {
    var b := v.thread.blocks;
    var v0 := v.(mutex := Some(t), thread := Thread(Checking(path), b));
    var v1 := v0.(thread := Thread(Trying(path), b));
    var v2 := v1.(kernel := v.kernel[path := p], thread := Thread(Won(path), b));
    var v3 := v2.(held := v.held[path := 1], thread := Thread(Entered(path), b));
    assert StepView(v0, p, t, Look) == Some(v1);
    assert StepView(v1, p, t, Try(true)) == Some(v2);
    assert StepView(v2, p, t, Stamp) == Some(v3);
    hide StepView, RunView;
    Approach(v, p, t, path, [Look, Try(true), Stamp, Return]);
    Inside(v0, v1, p, t, Look, [Try(true), Stamp, Return], [Look, Try(true), Stamp, Return]);
    Inside(v1, v2, p, t, Try(true), [Stamp, Return], [Try(true), Stamp, Return]);
    Inside(v2, v3, p, t, Stamp, [Return], [Stamp, Return]);
    Depart(v3, p, t);
  }

  lemma NestedEntryView(v: View, p: Pid, t: Tid, path: Path)
    requires Outside(v) && path in v.held
    ensures RunView(v, p, t, NestedEntry(path))
         == Some(View(v.kernel, v.held[path := v.held[path] + 1], None,
                      Thread(Running, v.thread.blocks + multiset{path})))
  {
    var b := v.thread.blocks;
    var v0 := v.(mutex := Some(t), thread := Thread(Checking(path), b));
    var v1 := v0.(held := v.held[path := v.held[path] + 1], thread := Thread(Entered(path), b));
    assert StepView(v0, p, t, Look) == Some(v1);
    hide StepView, RunView;
    Approach(v, p, t, path, [Look, Return]);
    Inside(v0, v1, p, t, Look, [Return], [Look, Return]);
    Depart(v1, p, t);
  }

  lemma OutermostExitView(v: View, p: Pid, t: Tid, path: Path)
    requires Outside(v) && path in v.thread.blocks && path in v.held && v.held[path] == 1
    ensures RunView(v, p, t, OutermostExit(path))
         == Some(View(v.kernel - {path}, v.held - {path}, None, Thread(Running, v.thread.blocks - multiset{path})))
  {
    var b := v.thread.blocks - multiset{path};
    var v0 := v.(mutex := Some(t), thread := Thread(Dropping(path), b));
    var v1 := v0.(held := v.held - {path}, thread := Thread(Unlocking(path), b));
    var v2 := v1.(kernel := v.kernel - {path}, thread := Thread(Done, b));
    assert StepView(v0, p, t, Drop) == Some(v1);
    assert StepView(v1, p, t, Unlock) == Some(v2);
    assert b + multiset{} == b;
    hide StepView, RunView;
    Withdraw(v, p, t, path, [Drop, Unlock, Return]);
    Inside(v0, v1, p, t, Drop, [Unlock, Return], [Drop, Unlock, Return]);
    Inside(v1, v2, p, t, Unlock, [Return], [Unlock, Return]);
    Depart(v2, p, t);
  }

  lemma NestedExitView(v: View, p: Pid, t: Tid, path: Path)
    requires Outside(v) && path in v.thread.blocks && path in v.held && v.held[path] > 1
    ensures RunView(v, p, t, NestedExit(path))
         == Some(View(v.kernel, v.held[path := v.held[path] - 1], None,
                      Thread(Running, v.thread.blocks - multiset{path})))
  {
    var b := v.thread.blocks - multiset{path};
    var v0 := v.(mutex := Some(t), thread := Thread(Dropping(path), b));
    var v1 := v0.(held := v.held[path := v.held[path] - 1], thread := Thread(Done, b));
    assert StepView(v0, p, t, Drop) == Some(v1);
    assert b + multiset{} == b;
    hide StepView, RunView;
    Withdraw(v, p, t, path, [Drop, Return]);
    Inside(v0, v1, p, t, Drop, [Return], [Drop, Return]);
    Depart(v1, p, t);
  }

  lemma {:induction false} RefusalsView(v: View, p: Pid, t: Tid, path: Path, n: nat)
    requires v.thread.pc == Trying(path) && path in v.kernel
    ensures RunView(v, p, t, Refusals(n)) == Some(v.(mutex := None, thread := v.thread.(pc := Running)))
    decreases n
  {
    if n == 0 {
      var v' := v.(mutex := Some(t), thread := v.thread.(pc := Done));
      assert StepView(v, p, t, GiveUp) == Some(v');
      assert v.thread.blocks + multiset{} == v.thread.blocks;
      hide StepView, RunView;
      Inside(v, v', p, t, GiveUp, [Return], Refusals(n));
      Depart(v', p, t);
    } else {
      var v' := v.(mutex := Some(t));
      assert StepView(v, p, t, Try(false)) == Some(v');
      hide StepView, RunView;
      Inside(v, v', p, t, Try(false), Refusals(n - 1), Refusals(n));
      RefusalsView(v', p, t, path, n - 1);
    }
  }

  lemma TimedOutView(v: View, p: Pid, t: Tid, path: Path, n: nat)
    requires Outside(v) && path !in v.held && path in v.kernel
    ensures RunView(v, p, t, TimedOut(path, n)) == Some(v)
  {
    var b := v.thread.blocks;
    var v0 := v.(mutex := Some(t), thread := Thread(Checking(path), b));
    var v1 := v0.(thread := Thread(Trying(path), b));
    assert StepView(v0, p, t, Look) == Some(v1);
    hide StepView, RunView, Refusals;
    Approach(v, p, t, path, [Look] + Refusals(n));
    Inside(v0, v1, p, t, Look, Refusals(n), [Look] + Refusals(n));
    RefusalsView(v1, p, t, path, n);
  }

  // ---------------------------------------------------------------------------------
  // In every reachable state

  ghost predicate Reachable(s: System) {
    exists actions :: Run(EMPTY, actions) == Some(s)
  }

  lemma ReachableInv(s: System)
    requires Reachable(s)
    ensures Inv(s)
  {
    var actions :| Run(EMPTY, actions) == Some(s);
    RunKeeps(EMPTY, actions);
  }

  ghost predicate Ready(s: System, p: Pid, t: Tid) {
    p in s.procs && t in s.procs[p].threads && Outside(ViewOf(s, p, t))
  }

  lemma ReadyView(s: System, p: Pid, t: Tid)
    requires Ready(s, p, t)
    ensures p in s.procs && t in s.procs[p].threads && Outside(ViewOf(s, p, t)) && s.procs[p].mutex.None?
    ensures ViewOf(s, p, t).held == s.procs[p].held && ViewOf(s, p, t).kernel == s.kernel
    ensures ViewOf(s, p, t).thread == s.procs[p].threads[t]
  {
  }

  /** What `_HELD` has is the process's in the kernel; outside the mutex the two are the same. */
  lemma HeldAndKernel(s: System, p: Pid, path: Path)
    requires Inv(s) && p in s.procs
    ensures path in s.procs[p].held ==> path in s.kernel && s.kernel[path] == p && s.procs[p].held[path] > 0
    ensures s.procs[p].mutex.None? && path in s.kernel && s.kernel[path] == p ==> path in s.procs[p].held
  {
    assert Kept(Owned(s.kernel, p), s.procs[p]);
    assert path in Owned(s.kernel, p) <==> path in s.kernel && s.kernel[path] == p;
  }

  lemma BlockIsHeld(s: System, p: Pid, t: Tid, path: Path)
    requires Inv(s) && p in s.procs && t in s.procs[p].threads && path in s.procs[p].threads[t].blocks
    ensures path in s.procs[p].held && s.procs[p].held[path] > 0
  {
    var pr := s.procs[p];
    assert Kept(Owned(s.kernel, p), pr);
    OpenPick(pr.threads, pr.threads.Keys, path, t);
    assert Depth(pr, path) == Open(pr, path) > 0;
  }

  /**
   * A path nobody has is the thread's for the asking: Begin, TakeMutex, Look, Try, Stamp, Return is enabled, the first
   * try wins, and the kernel lock is the process's, at depth 1, under one more open block. Nothing else changes.
   */
  lemma EntersFree(s: System, p: Pid, t: Tid, path: Path)
    requires Reachable(s) && Ready(s, p, t) && path !in s.kernel
    ensures var pr, th := s.procs[p], s.procs[p].threads[t];
      Run(s, Alone(p, t, OutermostEntry(path))) == Some(Put(s, p, t,
        View(s.kernel[path := p], pr.held[path := 1], None, Thread(Running, th.blocks + multiset{path}))))
  {
    hide *;
    ReachableInv(s);
    ReadyView(s, p, t);
    HeldAndKernel(s, p, path);
    OutermostEntryView(ViewOf(s, p, t), p, t, path);
    RunAlone(s, p, t, OutermostEntry(path));
  }

  /** A path the process has already is entered without asking the kernel, one level deeper. */
  lemma EntersHeld(s: System, p: Pid, t: Tid, path: Path)
    requires Reachable(s) && Ready(s, p, t) && path in s.kernel && s.kernel[path] == p
    ensures path in s.procs[p].held && s.procs[p].held[path] > 0
    ensures var pr, th := s.procs[p], s.procs[p].threads[t];
      Run(s, Alone(p, t, NestedEntry(path))) == Some(Put(s, p, t,
        View(s.kernel, pr.held[path := pr.held[path] + 1], None, Thread(Running, th.blocks + multiset{path}))))
  {
    hide *;
    ReachableInv(s);
    ReadyView(s, p, t);
    HeldAndKernel(s, p, path);
    NestedEntryView(ViewOf(s, p, t), p, t, path);
    RunAlone(s, p, t, NestedEntry(path));
  }

  /** However often it polls, a timed-out acquisition of a path another process has ends in the state it began in. */
  lemma TimesOut(s: System, p: Pid, t: Tid, path: Path, polls: nat)
    requires Reachable(s) && Ready(s, p, t) && path in s.kernel && s.kernel[path] != p
    ensures Run(s, Alone(p, t, TimedOut(path, polls))) == Some(s)
  {
    hide *;
    ReachableInv(s);
    ReadyView(s, p, t);
    HeldAndKernel(s, p, path);
    TimedOutView(ViewOf(s, p, t), p, t, path, polls);
    RunAlone(s, p, t, TimedOut(path, polls));
    PutItself(s, p, t);
  }

  /** Every open block can be given back; the outermost one gives the kernel lock back with it. */
  lemma Exits(s: System, p: Pid, t: Tid, path: Path)
    requires Reachable(s) && Ready(s, p, t) && path in s.procs[p].threads[t].blocks
    ensures path in s.procs[p].held && s.procs[p].held[path] > 0 && path in s.kernel && s.kernel[path] == p
    ensures var pr, th := s.procs[p], s.procs[p].threads[t];
      if pr.held[path] == 1 then
        Run(s, Alone(p, t, OutermostExit(path))) == Some(Put(s, p, t,
          View(s.kernel - {path}, pr.held - {path}, None, Thread(Running, th.blocks - multiset{path}))))
      else
        Run(s, Alone(p, t, NestedExit(path))) == Some(Put(s, p, t,
          View(s.kernel, pr.held[path := pr.held[path] - 1], None, Thread(Running, th.blocks - multiset{path}))))
  {
    hide *;
    ReachableInv(s);
    ReadyView(s, p, t);
    BlockIsHeld(s, p, t, path);
    HeldAndKernel(s, p, path);
    if s.procs[p].held[path] == 1 {
      OutermostExitView(ViewOf(s, p, t), p, t, path);
      RunAlone(s, p, t, OutermostExit(path));
    } else {
      NestedExitView(ViewOf(s, p, t), p, t, path);
      RunAlone(s, p, t, NestedExit(path));
    }
  }

  /** After the outermost exit any other process's thread that is outside the module can have the path. */
  lemma HandsOver(s: System, p: Pid, t: Tid, q: Pid, u: Tid, path: Path)
    requires Reachable(s) && Ready(s, p, t) && path in s.procs[p].threads[t].blocks && p != q && Ready(s, q, u)
    requires path in s.procs[p].held && s.procs[p].held[path] == 1
    ensures var s' := Run(s, Alone(p, t, OutermostExit(path)) + Alone(q, u, OutermostEntry(path)));
      && s'.Some? && path in s'.value.kernel && s'.value.kernel[path] == q
      && q in s'.value.procs && u in s'.value.procs[q].threads
      && s'.value.procs[q].threads[u] == Thread(Running, s.procs[q].threads[u].blocks + multiset{path})
  {
    Exits(s, p, t, path);
    var s1 := Run(s, Alone(p, t, OutermostExit(path))).value;
    assert path !in s1.kernel && Ready(s1, q, u) && s1.procs[q] == s.procs[q];
    hide Run, Ready, Alone, OutermostEntry, OutermostExit;
    RunConcat(s, Alone(p, t, OutermostExit(path)), Alone(q, u, OutermostEntry(path)));
    ReachableRun(s, Alone(p, t, OutermostExit(path)));
    EntersFree(s1, q, u, path);
  }

  lemma PutItself(s: System, p: Pid, t: Tid)
    requires p in s.procs && t in s.procs[p].threads
    ensures Put(s, p, t, ViewOf(s, p, t)) == s
  {
    assert s.procs[p].threads[t := s.procs[p].threads[t]] == s.procs[p].threads;
    assert s.procs[p := s.procs[p]] == s.procs;
  }

  lemma {:induction false} RunConcat(s: System, a: seq<Action>, b: seq<Action>)
    requires Run(s, a).Some?
    ensures Run(s, a + b) == Run(Run(s, a).value, b)
    decreases |a|
  {
    hide Step;
    if a == [] {
      assert a + b == b;
    } else {
      assert (a + b)[0] == a[0] && (a + b)[1..] == a[1..] + b;
      RunConcat(Step(s, a[0]).value, a[1..], b);
    }
  }

  lemma ReachableRun(s: System, a: seq<Action>)
    requires Reachable(s) && Run(s, a).Some?
    ensures Reachable(Run(s, a).value)
  {
    hide Run;
    var actions :| Run(EMPTY, actions) == Some(s);
    RunConcat(EMPTY, actions, a);
    assert Run(EMPTY, actions + a) == Some(Run(s, a).value);
  }

  // ---------------------------------------------------------------------------------
  // Who can get in

  /** The rest of what the thread inside the mutex has to do; a contended wait times out. */
  function WayOut(pc: Pc, held: map<Path, nat>): seq<Op> {
    match pc
    case Checking(path) => if path in held then [Look, Return] else [Look, GiveUp, Return]
    case Trying(_) => [GiveUp, Return]
    case Won(_) => [Stamp, Return]
    case Dropping(path) => if path in held && held[path] == 1 then [Drop, Unlock, Return] else [Drop, Return]
    case Unlocking(_) => [Unlock, Return]
    case _ => [Return]
  }

  lemma LastStep(v: View, p: Pid, t: Tid, op: Op)
    requires StepView(v, p, t, op).Some?
    requires StepView(v, p, t, op).value.thread.pc.Entered? || StepView(v, p, t, op).value.thread.pc.Done?
    ensures RunView(v, p, t, [op, Return]).Some? && Outside(RunView(v, p, t, [op, Return]).value)
  {
    var v' := StepView(v, p, t, op).value;
    Inside(v, v', p, t, op, [Return], [op, Return]);
    Depart(v', p, t);
    hide StepView, RunView;
  }

  lemma TwoSteps(v: View, p: Pid, t: Tid, op: Op, op': Op)
    requires StepView(v, p, t, op).Some?
    requires var v' := StepView(v, p, t, op).value;
      StepView(v', p, t, op').Some? && StepView(v', p, t, op').value.thread.pc.Done?
    ensures RunView(v, p, t, [op, op', Return]).Some? && Outside(RunView(v, p, t, [op, op', Return]).value)
  {
    var v' := StepView(v, p, t, op).value;
    Inside(v, v', p, t, op, [op', Return], [op, op', Return]);
    hide StepView, RunView;
    LastStep(v', p, t, op');
  }

  lemma WayOutView(v: View, p: Pid, t: Tid)
    requires InMutex(v.thread.pc) && v.mutex == Some(t)
    requires v.thread.pc.Dropping? ==> v.thread.pc.path in v.held && v.held[v.thread.pc.path] > 0
    ensures var v' := RunView(v, p, t, WayOut(v.thread.pc, v.held)); v'.Some? && Outside(v'.value)
  {
    var held, pc := v.held, v.thread.pc;
    hide RunView;
    match pc
    case Checking(path) => if path in held { LastStep(v, p, t, Look); } else { TwoSteps(v, p, t, Look, GiveUp); }
    case Trying(_) => LastStep(v, p, t, GiveUp);
    case Won(_) => LastStep(v, p, t, Stamp);
    case Dropping(path) => if held[path] == 1 { TwoSteps(v, p, t, Drop, Unlock); } else { LastStep(v, p, t, Drop); }
    case Unlocking(_) => LastStep(v, p, t, Unlock);
    case _ => Depart(v, p, t);
  }

  /** Whatever state it is found in, a process's mutex comes free by steps of the thread that is inside it. */
  lemma MutexFreed(s: System, p: Pid, u: Tid) returns (ops: seq<Op>)
    requires Reachable(s) && p in s.procs && s.procs[p].mutex == Some(u)
    ensures var s' := Run(s, Alone(p, u, ops));
      && s'.Some? && p in s'.value.procs && s'.value.procs[p].mutex.None?
      && forall t | t in s.procs[p].threads && t != u ::
           t in s'.value.procs[p].threads && s'.value.procs[p].threads[t] == s.procs[p].threads[t]
  {
    ReachableInv(s);
    var pr := s.procs[p];
    assert Kept(Owned(s.kernel, p), pr);
    assert u in pr.threads && InMutex(pr.threads[u].pc);
    if pr.threads[u].pc.Dropping? {
      Dropped(pr, u);
    }
    hide Inv, Kept, Run, RunView, Alone, Reachable;
    ops := WayOut(pr.threads[u].pc, pr.held);
    WayOutView(ViewOf(s, p, u), p, u);
    RunAlone(s, p, u, ops);
  }

  ghost predicate OnlyBy(actions: seq<Action>, p: Pid) {
    forall a | a in actions :: a.By? && a.p == p
  }

  /** By steps of its own process alone, the thread comes to be in one more block on `path`. */
  ghost predicate GetsIn(s: System, actions: seq<Action>, p: Pid, t: Tid, path: Path)
    requires p in s.procs && t in s.procs[p].threads
  {
    && OnlyBy(actions, p) && Run(s, actions).Some?
    && var s' := Run(s, actions).value;
       && p in s'.procs && t in s'.procs[p].threads
       && s'.procs[p].threads[t] == Thread(Running, s.procs[p].threads[t].blocks + multiset{path})
  }

  ghost predicate HadByAnother(s: System, p: Pid, path: Path) {
    path in s.kernel && s.kernel[path] != p
  }

  lemma StepLeavesOthers(s: System, p: Pid, t: Tid, op: Op, path: Path)
    requires Inv(s) && Step(s, By(p, t, op)).Some?
    ensures HadByAnother(s, p, path) <==> HadByAnother(Step(s, By(p, t, op)).value, p, path)
  {
    var pr, s' := s.procs[p], Step(s, By(p, t, op)).value;
    TakesFree(s.kernel, pr, t, op);
    LocalKeeps(Owned(s.kernel, p), pr, t, op);
    hide Kept, Local, KernelAgrees, KernelAfter;
    forall q | q != p ensures path in Owned(s.kernel, q) <==> path in Owned(s'.kernel, q) {
      OthersKeepOwned(s.kernel, p, q, Local(pr, t, op).value.1);
    }
    AnotherOwns(s, p, path);
    AnotherOwns(s', p, path);
  }

  lemma AnotherOwns(s: System, p: Pid, path: Path)
    ensures HadByAnother(s, p, path) <==> exists q :: q != p && path in Owned(s.kernel, q)
  {
    if HadByAnother(s, p, path) {
      assert path in Owned(s.kernel, s.kernel[path]);
    }
  }

  lemma {:induction false} RunLeavesOthers(s: System, actions: seq<Action>, p: Pid, path: Path)
    requires Inv(s) && Run(s, actions).Some? && OnlyBy(actions, p)
    ensures Inv(Run(s, actions).value)
    ensures HadByAnother(s, p, path) <==> HadByAnother(Run(s, actions).value, p, path)
    decreases |actions|
  {
    hide Inv, Step, HadByAnother;
    if actions != [] {
      var a := actions[0];
      assert a in actions;
      StepKeeps(s, a);
      StepLeavesOthers(s, p, a.t, a.op, path);
      RunLeavesOthers(Step(s, a).value, actions[1..], p, path);
    }
  }

  /** From outside the mutex: one entry, of whichever kind the path calls for. */
  lemma ReadyGetsIn(s: System, p: Pid, t: Tid, path: Path) returns (ops: seq<Op>)
    requires Reachable(s) && Ready(s, p, t) && !HadByAnother(s, p, path)
    ensures GetsIn(s, Alone(p, t, ops), p, t, path)
  {
    if path in s.kernel {
      EntersHeld(s, p, t, path);
      ops := NestedEntry(path);
    } else {
      EntersFree(s, p, t, path);
      ops := OutermostEntry(path);
    }
    hide Run, NestedEntry, OutermostEntry, Reachable;
  }

  lemma OwnMoves(s: System, p: Pid, t: Tid, path: Path) returns (actions: seq<Action>)
    requires Reachable(s) && p in s.procs && t in s.procs[p].threads && s.procs[p].threads[t].pc.Running?
    requires !HadByAnother(s, p, path)
    ensures GetsIn(s, actions, p, t, path)
  {
    if s.procs[p].mutex.None? {
      var ops := ReadyGetsIn(s, p, t, path);
      actions := Alone(p, t, ops);
    } else {
      var u := s.procs[p].mutex.value;
      InsideIsNotRunning(s, p, t);
      var before := MutexFreed(s, p, u);
      var s1 := Run(s, Alone(p, u, before)).value;
      ReachableRun(s, Alone(p, u, before));
      ReachableInv(s);
      RunLeavesOthers(s, Alone(p, u, before), p, path);
      assert Ready(s1, p, t);
      var ops := ReadyGetsIn(s1, p, t, path);
      actions := Alone(p, u, before) + Alone(p, t, ops);
      hide Run, Reachable, HadByAnother;
      RunConcat(s, Alone(p, u, before), Alone(p, t, ops));
    }
  }

  lemma InsideIsNotRunning(s: System, p: Pid, t: Tid)
    requires Reachable(s) && p in s.procs && t in s.procs[p].threads && s.procs[p].threads[t].pc.Running?
    ensures s.procs[p].mutex != Some(t)
  {
    ReachableInv(s);
    assert Kept(Owned(s.kernel, p), s.procs[p]);
  }

  /**
   * In every reachable state a thread outside the module can get into `path`, by steps of its own process alone,
   * exactly when no other process has it.
   */
  lemma CanGetInIff(s: System, p: Pid, t: Tid, path: Path)
    requires Reachable(s) && p in s.procs && t in s.procs[p].threads && s.procs[p].threads[t].pc.Running?
    ensures (exists actions :: GetsIn(s, actions, p, t, path)) <==> !HadByAnother(s, p, path)
  {
    hide Reachable;
    if actions :| GetsIn(s, actions, p, t, path) {
      ReachableInv(s);
      var s' := Run(s, actions).value;
      RunLeavesOthers(s, actions, p, path);
      OpenPick(s'.procs[p].threads, s'.procs[p].threads.Keys, path, t);
      OpenIsOwned(s', p, path);
    }
    if !HadByAnother(s, p, path) {
      var actions := OwnMoves(s, p, t, path);
    }
  }
}
