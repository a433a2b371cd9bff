// proxyshop_support/neo4j_lock.py inside one process: how long an acquisition may wait, and what one
// hold is charged for. The kernel's answers and the clock are a `World` the wait runs against.
module Neo4jLock {
  import opened Prelude
  import opened RealMath
  import LockSystem

  type Path = LockSystem.Path

  // ---------------------------------------------------------------------------------
  // `_effective_timeout`

  const AMBIENT_DEADLINE_MARGIN: real := 5.0

  function EffectiveTimeout(timeout: real, ambient: Option<real>): (real, Option<real>) {
    match ambient
    case None => (timeout, None)
    case Some(left) =>
      var allowed := if left - AMBIENT_DEADLINE_MARGIN > 0.0 then left - AMBIENT_DEADLINE_MARGIN else 0.0;
      if allowed >= timeout then (timeout, None) else (allowed, Some(left))
  }

  /**
   * The budget is the longest wait within the request that leaves the margin, where there is a margin left to
   * leave.
   */
  lemma BudgetBounds(timeout: real, ambient: Option<real>, other: real)
    ensures EffectiveTimeout(timeout, ambient).0 <= timeout
    ensures ambient.Some? && ambient.value >= AMBIENT_DEADLINE_MARGIN ==>
      EffectiveTimeout(timeout, ambient).0 <= ambient.value - AMBIENT_DEADLINE_MARGIN
    ensures other <= timeout && (ambient.None? || other <= 0.0 || other <= ambient.value - AMBIENT_DEADLINE_MARGIN) ==>
      other <= EffectiveTimeout(timeout, ambient).0
    ensures EffectiveTimeout(timeout, ambient).1.Some? <==> EffectiveTimeout(timeout, ambient).0 < timeout
  {
  }

  // ---------------------------------------------------------------------------------
  // The wait

  /** Whether the i-th flock attempt succeeds, and what the i-th reading of the monotonic clock says. */
  datatype World = World(free: nat -> bool, clock: nat -> real)

  /** What `time.sleep` is asked for after a failed attempt at `now`. */
  function Nap(poll: real, deadline: real, now: real): real {
    var left := if deadline - now > 0.0 then deadline - now else 0.0;
    if poll <= left then poll else left
  }

  function Deadline(w: World, timeout: real, ambient: Option<real>): real {
    w.clock(0) + EffectiveTimeout(timeout, ambient).0
  }

  /** After a failed i-th attempt, the next reading is at least the sleep later. */
  ghost predicate Slept(w: World, poll: real, deadline: real, i: nat) {
    w.clock(i + 2) >= w.clock(i + 1) + Nap(poll, deadline, w.clock(i + 1))
  }

  /** The clock never runs back, a sleep lasts at least as long as asked, and time does pass. */
  ghost predicate Passes(w: World, poll: real, deadline: real, horizon: nat) {
    && (forall i: nat, j: nat :: i <= j ==> w.clock(i) <= w.clock(j))
    && (forall i: nat :: !w.free(i) ==> Slept(w, poll, deadline, i))
    && w.clock(horizon) >= deadline
  }

  /** `tries`: the index of the last flock attempt. */
  datatype Waited =
    | Won(tries: nat, waited: real, contended: bool)
    | TimedOut(tries: nat)
    | BadPoll

  /** The i-th attempt failed, before the deadline. */
  ghost predicate Missed(w: World, deadline: real, i: nat) {
    !w.free(i) && w.clock(i + 1) < deadline
  }

  ghost predicate Polled(w: World, deadline: real, tries: nat) {
    forall i: nat | i < tries :: Missed(w, deadline, i)
  }

  ghost predicate NapsWithin(w: World, poll: real, deadline: real, naps: seq<real>) {
    forall i | 0 <= i < |naps| ::
      && w.clock(i + 1) + naps[i] <= deadline
      && (naps[i] == poll || (naps[i] < poll && w.clock(i + 1) + naps[i] == deadline))
  }

  /**
   * The polling loop of `_acquire`. It is won at the first free attempt; it is given up only at a
   * reading at or past the deadline; each sleep it asks for is a poll, or ends
   * short of one exactly at the deadline, and none ends later; it is marked
   * contended exactly when the first attempt failed; and it reports nothing when it was not.
   */
  method WaitForFlock(w: World, timeout: real, ambient: Option<real>, poll: real, reportEvery: real, ghost horizon: nat)
    returns (r: Waited, naps: seq<real>, reports: nat)
    requires Passes(w, poll, Deadline(w, timeout, ambient), horizon)
    ensures match r
      case Won(tries, waited, contended) =>
        && w.free(tries) && Polled(w, Deadline(w, timeout, ambient), tries)
        && waited == w.clock(tries + 1) - w.clock(0) && contended == !w.free(0)
        && |naps| == tries && (reports > 0 <==> contended)
      case TimedOut(tries) =>
        && !w.free(tries) && Polled(w, Deadline(w, timeout, ambient), tries)
        && w.clock(tries + 1) >= Deadline(w, timeout, ambient)
        && |naps| == tries && reports > 0
      case BadPoll => poll < 0.0 && !w.free(0) && w.clock(1) < Deadline(w, timeout, ambient) && naps == []
    ensures NapsWithin(w, poll, Deadline(w, timeout, ambient), naps)
  {
    var started := w.clock(0);
    var deadline := started + EffectiveTimeout(timeout, ambient).0;
    var nextReport := started + reportEvery;
    var tries := 0;
    naps, reports := [], 0;
    hide Passes, EffectiveTimeout, Nap;
    while !w.free(tries)
      invariant Polled(w, deadline, tries)
      invariant if tries == 0 then reports == 0 else reports > 0 && !w.free(0)
      invariant |naps| == tries && NapsWithin(w, poll, deadline, naps) && (tries > 0 ==> poll >= 0.0)
      decreases horizon + 1 - tries
    {
      var now := w.clock(tries + 1);
      if tries == 0 {
        reports := reports + 1;
      }
      if now >= deadline {
        return TimedOut(tries), naps, reports;
      }
      BeforeHorizon(w, poll, deadline, horizon, tries + 1);
      if now >= nextReport {
        nextReport := now + reportEvery;
        reports := reports + 1;
      }
      if poll < 0.0 {
        return BadPoll, naps, reports;
      }
      NapEnds(poll, deadline, now);
      assert Missed(w, deadline, tries);
      naps := naps + [Nap(poll, deadline, now)];
      tries := tries + 1;
    }
    r := Won(tries, w.clock(tries + 1) - started, tries > 0);
  }

  lemma NapEnds(poll: real, deadline: real, now: real)
    requires now < deadline
    ensures var nap := Nap(poll, deadline, now);
      now + nap <= deadline && (nap == poll || (nap < poll && now + nap == deadline))
  {
  }

  lemma BeforeHorizon(w: World, poll: real, deadline: real, horizon: nat, i: nat)
    requires Passes(w, poll, deadline, horizon) && w.clock(i) < deadline
    ensures i < horizon
  {
    assert horizon <= i ==> w.clock(horizon) <= w.clock(i);
  }

  /** All but the last sleep are whole polls, so `tries` failed attempts fit `(tries - 1) * poll` into the budget. */
  lemma {:induction false} WholePolls(w: World, poll: real, deadline: real, horizon: nat, tries: nat)
    requires Passes(w, poll, deadline, horizon) && poll > 0.0 && tries > 0 && Polled(w, deadline, tries)
    ensures w.clock(tries) >= w.clock(1) + Steps(tries - 1, poll)
  {
    if tries > 1 {
      WholePolls(w, poll, deadline, horizon, tries - 1);
      assert Missed(w, deadline, tries - 1) && Missed(w, deadline, tries - 2);
      assert Slept(w, poll, deadline, tries - 2);
    }
  }

  /** With a positive poll interval, the wait makes fewer than budget/poll + 2 attempts, however it ends. */
  lemma PollsBounded(w: World, timeout: real, ambient: Option<real>, poll: real, horizon: nat, tries: nat)
    requires Passes(w, poll, Deadline(w, timeout, ambient), horizon) && poll > 0.0
    requires Polled(w, Deadline(w, timeout, ambient), tries) && tries > 0
    ensures tries as real < EffectiveTimeout(timeout, ambient).0 / poll + 1.0
  {
    WholePolls(w, poll, Deadline(w, timeout, ambient), horizon, tries);
    assert Missed(w, Deadline(w, timeout, ambient), tries - 1);
    assert w.clock(0) <= w.clock(1);
    hide *;
    StepsWithin(tries - 1, poll, EffectiveTimeout(timeout, ambient).0);
    assert tries as real == (tries - 1) as real + 1.0;
  }

  lemma StepsWithin(n: nat, poll: real, budget: real)
    requires poll > 0.0 && Steps(n, poll) < budget
    ensures n as real < budget / poll
  {
    StepsProduct(n, poll);
    hide Steps;
    Quotient(n as real, poll, budget);
  }

  lemma Quotient(n: real, poll: real, budget: real)
    requires poll > 0.0 && n * poll < budget
    ensures n < budget / poll
  {
    var q := budget / poll;
    assert q * poll == budget;
    if n >= q {
      NonNeg(poll, n - q);
      Minus(poll, n, q);
    }
  }

  // ---------------------------------------------------------------------------------
  // What one hold is charged for

  datatype Reset = Reset(ms: real, nodes: nat, relationships: nat)

  datatype Acquisition = Acquisition(
    waited: real, contended: bool, acquiredAt: real, held: real,
    reentries: nat, maxDepth: nat, resets: nat, resetMs: real, nodesDeleted: nat, relationshipsDeleted: nat)

  datatype Holding = Holding(depth: nat, stats: Acquisition)

  function Fresh(waited: real, contended: bool, at: real): Holding {
    Holding(1, Acquisition(waited, contended, at, 0.0, 0, 1, 0, 0.0, 0, 0))
  }

  function Reentered(h: Holding): Holding {
    Holding(h.depth + 1, h.stats.(reentries := h.stats.reentries + 1, maxDepth := Max(h.stats.maxDepth, h.depth + 1)))
  }

  function Charged(h: Holding, o: Reset): Holding {
    h.(stats := h.stats.(
      resets := h.stats.resets + 1, resetMs := h.stats.resetMs + o.ms,
      nodesDeleted := h.stats.nodesDeleted + o.nodes,
      relationshipsDeleted := h.stats.relationshipsDeleted + o.relationships))
  }

  /** Which hold a reset belongs to: the path it names; else the only one; else the default path's. */
  function Attributed(held: map<Path, Holding>, path: Option<Path>, standard: Path): Option<Path> {
    if path.Some? then (if path.value in held then path else None)
    else if |held| == 1 then Some(TheOnly(held))
    else if standard in held then Some(standard)
    else None
  }

  function TheOnly(held: map<Path, Holding>): (p: Path)
    requires |held| == 1
    ensures p in held
  {
    OnlyOne(held);
    var p :| p in held;
    p
  }

  lemma OnlyOne(held: map<Path, Holding>)
    requires |held| == 1
    ensures exists p :: p in held
    ensures forall p, q | p in held && q in held :: p == q
  {
    var p :| p in held.Keys;
    forall a, b | a in held && b in held ensures a == b {
      SetSize({a, b}, held.Keys);
    }
  }

  datatype Answer = Entered | Refused | Broken

  class LockTable {
    var held: map<Path, Holding>
    var log: seq<(Path, Acquisition)>

    /** Every entry of `_HELD` stands for at least one open block. */
    ghost predicate Valid()
      reads this
    {
      forall p | p in held :: held[p].depth > 0
    }

    constructor ()
      ensures Valid() && held == map[] && log == []
    {
      held, log := map[], [];
    }

    /** `_acquire`: nested without asking the kernel; otherwise the wait above; nothing changes on a failure. */
    method Acquire(path: Path, w: World, timeout: real, ambient: Option<real>, poll: real, reportEvery: real,
        ghost horizon: nat)
      returns (a: Answer)
      requires Valid() && Passes(w, poll, Deadline(w, timeout, ambient), horizon)
      modifies this`held
      ensures Valid()
      ensures path in old(held) ==> a == Entered && held == old(held)[path := Reentered(old(held)[path])]
      ensures path !in old(held) && a == Entered ==> exists tries: nat ::
        && w.free(tries) && Polled(w, Deadline(w, timeout, ambient), tries)
        && held == old(held)[path := Fresh(w.clock(tries + 1) - w.clock(0), !w.free(0), w.clock(tries + 1))]
      ensures a == Refused ==> exists tries: nat ::
        && Polled(w, Deadline(w, timeout, ambient), tries) && !w.free(tries)
        && w.clock(tries + 1) >= Deadline(w, timeout, ambient)
      ensures a != Entered ==> held == old(held)
    {
      if path in held {
        held := held[path := Reentered(held[path])];
        return Entered;
      }
      var r, naps, reports := WaitForFlock(w, timeout, ambient, poll, reportEvery, horizon);
      match r
      case Won(tries, waited, contended) =>
        held := held[path := Fresh(waited, contended, w.clock(tries + 1))];
        a := Entered;
      case TimedOut(tries) =>
        a := Refused;
      case BadPoll =>
        a := Broken;
    }

    /** `_release`: the outermost release takes the path out, and logs the hold it ends. */
    method Release(path: Path, now: real) returns (unlocked: bool)
      requires Valid()
      modifies this
      ensures Valid()
      ensures unlocked == (path in old(held) && old(held)[path].depth == 1)
      ensures held == if path !in old(held) then old(held)
        else if unlocked then old(held) - {path}
        else old(held)[path := old(held)[path].(depth := old(held)[path].depth - 1)]
      ensures log == if unlocked
        then old(log) + [(path, old(held)[path].stats.(held := now - old(held)[path].stats.acquiredAt))]
        else old(log)
    {
      if path !in held {
        return false;
      }
      var h := held[path].(depth := held[path].depth - 1);
      if h.depth > 0 {
        held := held[path := h];
        return false;
      }
      held := held - {path};
      log := log + [(path, h.stats.(held := now - h.stats.acquiredAt))];
      unlocked := true;
    }

    /** `_record_reset`: charged to at most one hold, and to none when that would be a guess. */
    method RecordReset(path: Option<Path>, standard: Path, o: Reset)
      requires Valid()
      modifies this`held
      ensures Valid()
      ensures match Attributed(old(held), path, standard)
        case None => held == old(held)
        case Some(p) => p in old(held) && held == old(held)[p := Charged(old(held)[p], o)]
    {
      var target: Option<Path> := None;
      if path.Some? {
        if path.value in held {
          target := path;
        }
      } else if |held| == 1 {
        OnlyOne(held);
        var p :| p in held;
        target := Some(p);
      } else if standard in held {
        target := Some(standard);
      }
      if target.Some? {
        held := held[target.value := Charged(held[target.value], o)];
      }
    }
  }

  // ---------------------------------------------------------------------------------
  // The record of a whole hold

  /** What can happen to a hold between the flock being won and the outermost release. */
  datatype Event = Again | Back | Wipe(o: Reset)

  function After(h: Holding, e: Event): Holding {
    match e
    case Again => Reentered(h)
    case Back => if h.depth > 1 then h.(depth := h.depth - 1) else h
    case Wipe(o) => Charged(h, o)
  }

  function AfterAll(h: Holding, events: seq<Event>): Holding {
    if events == [] then h else After(AfterAll(h, events[..|events| - 1]), events[|events| - 1])
  }

  /** The depth an observer of the events would count. */
  function DepthAfter(events: seq<Event>): int {
    if events == [] then 1
    else
      DepthAfter(events[..|events| - 1]) +
      match events[|events| - 1]
      case Again => 1
      case Back => -1
      case Wipe(_) => 0
  }

  /** The outermost release is not among the events: every prefix leaves a block open. */
  ghost predicate Inside(events: seq<Event>) {
    forall i | 0 <= i <= |events| :: DepthAfter(events[..i]) >= 1
  }

  ghost function Wipes(events: seq<Event>): seq<Reset> {
    if events == [] then []
    else Wipes(events[..|events| - 1]) + (if events[|events| - 1].Wipe? then [events[|events| - 1].o] else [])
  }

  /** The resets' columns added up. */
  ghost function Total(resets: seq<Reset>): Reset {
    if resets == [] then Reset(0.0, 0, 0) else Added(Total(resets[..|resets| - 1]), resets[|resets| - 1])
  }

  ghost function Added(t: Reset, o: Reset): Reset {
    Reset(t.ms + o.ms, t.nodes + o.nodes, t.relationships + o.relationships)
  }

  ghost function Nestings(events: seq<Event>): nat {
    |set i | 0 <= i < |events| && events[i] == Again|
  }

  ghost function Recorded(waited: real, contended: bool, at: real, events: seq<Event>): Holding {
    AfterAll(Fresh(waited, contended, at), events)
  }

  lemma InsideBefore(events: seq<Event>)
    requires Inside(events) && events != []
    ensures Inside(events[..|events| - 1]) && DepthAfter(events) >= 1
  {
    var n := |events| - 1;
    assert events[..n + 1] == events;
    forall i | 0 <= i <= n ensures DepthAfter(events[..n][..i]) >= 1 {
      assert events[..n][..i] == events[..i];
    }
  }

  lemma {:induction false} HoldDepth(waited: real, contended: bool, at: real, events: seq<Event>)
    requires Inside(events)
    ensures Recorded(waited, contended, at, events).depth == DepthAfter(events)
  {
    if events != [] {
      InsideBefore(events);
      HoldDepth(waited, contended, at, events[..|events| - 1]);
    }
  }

  lemma {:induction false} HoldNestings(waited: real, contended: bool, at: real, events: seq<Event>)
    ensures Recorded(waited, contended, at, events).stats.reentries == Nestings(events)
  {
    if events != [] {
      HoldNestings(waited, contended, at, events[..|events| - 1]);
      NestingsStep(events);
    }
  }

  /** `d` is the greatest depth of any moment of the events. */
  ghost predicate Deepest(events: seq<Event>, d: int) {
    && (forall i | 0 <= i <= |events| :: DepthAfter(events[..i]) <= d)
    && (exists i :: 0 <= i <= |events| && DepthAfter(events[..i]) == d)
  }

  lemma {:induction false} HoldDeepest(waited: real, contended: bool, at: real, events: seq<Event>)
    requires Inside(events)
    ensures Deepest(events, Recorded(waited, contended, at, events).stats.maxDepth)
  {
    if events == [] {
      assert events[..0] == [];
      assert DepthAfter(events[..0]) == 1;
    } else {
      InsideBefore(events);
      HoldDeepest(waited, contended, at, events[..|events| - 1]);
      HoldDepth(waited, contended, at, events);
      HoldDepth(waited, contended, at, events[..|events| - 1]);
      DeepestStep(Recorded(waited, contended, at, events[..|events| - 1]), events);
    }
  }

  lemma WipesStep(events: seq<Event>, o: Reset)
    requires events != [] && events[|events| - 1] == Wipe(o)
    ensures Wipes(events) == Wipes(events[..|events| - 1]) + [o]
    ensures Total(Wipes(events)) == Added(Total(Wipes(events[..|events| - 1])), o)
  {
    var before := Wipes(events[..|events| - 1]);
    assert (before + [o])[..|before|] == before;
  }

  /** What the statistics say of the resets, and of the wait, which nothing inside the hold touches. */
  ghost predicate Tallies(stats: Acquisition, waited: real, contended: bool, at: real, wipes: seq<Reset>) {
    && stats.resets == |wipes|
    && Reset(stats.resetMs, stats.nodesDeleted, stats.relationshipsDeleted) == Total(wipes)
    && stats.waited == waited && stats.contended == contended && stats.acquiredAt == at
  }

  lemma TalliesStep(h: Holding, waited: real, contended: bool, at: real, events: seq<Event>)
    requires events != [] && Tallies(h.stats, waited, contended, at, Wipes(events[..|events| - 1]))
    ensures Tallies(After(h, events[|events| - 1]).stats, waited, contended, at, Wipes(events))
  {
    match events[|events| - 1]
    case Wipe(o) =>
      WipesStep(events, o);
      hide Wipes, Total;
      TalliesWipe(h, waited, contended, at, Wipes(events[..|events| - 1]), o);
    case _ =>
      assert Wipes(events) == Wipes(events[..|events| - 1]) by {
        assert Wipes(events[..|events| - 1]) + [] == Wipes(events[..|events| - 1]);
      }
      hide Wipes, Total, Max;
  }

  lemma TalliesWipe(h: Holding, waited: real, contended: bool, at: real, wipes: seq<Reset>, o: Reset)
    requires Tallies(h.stats, waited, contended, at, wipes)
    requires Total(wipes + [o]) == Added(Total(wipes), o)
    ensures Tallies(Charged(h, o).stats, waited, contended, at, wipes + [o])
  {
    hide Total;
  }

  lemma {:induction false} HoldWipes(waited: real, contended: bool, at: real, events: seq<Event>)
    ensures Tallies(Recorded(waited, contended, at, events).stats, waited, contended, at, Wipes(events))
  {
    if events != [] {
      HoldWipes(waited, contended, at, events[..|events| - 1]);
      TalliesStep(Recorded(waited, contended, at, events[..|events| - 1]), waited, contended, at, events);
    }
  }

  /**
   * A hold's record says how often it was re-entered, the greatest depth any of its moments had, and
   * the number and the totals of exactly the resets that ran inside it; the wait it was won with is untouched.
   */
  lemma HoldAccounts(waited: real, contended: bool, at: real, events: seq<Event>)
    requires Inside(events)
    ensures var h := Recorded(waited, contended, at, events);
      && h.depth == DepthAfter(events) && h.stats.reentries == Nestings(events) && Deepest(events, h.stats.maxDepth)
      && Tallies(h.stats, waited, contended, at, Wipes(events))
  {
    HoldDepth(waited, contended, at, events);
    HoldNestings(waited, contended, at, events);
    HoldDeepest(waited, contended, at, events);
    HoldWipes(waited, contended, at, events);
  }

  lemma NestingsStep(events: seq<Event>)
    requires events != []
    ensures Nestings(events) == Nestings(events[..|events| - 1]) + (if events[|events| - 1] == Again then 1 else 0)
  {
    var n := |events| - 1;
    var a := set i | 0 <= i < |events| && events[i] == Again;
    var b := set i | 0 <= i < |events[..n]| && events[..n][i] == Again;
    assert a == if events[n] == Again then b + {n} else b;
  }

  lemma DeepestStep(h: Holding, events: seq<Event>)
    requires events != [] && Deepest(events[..|events| - 1], h.stats.maxDepth)
    requires After(h, events[|events| - 1]).depth == DepthAfter(events) && h.depth == DepthAfter(events[..|events| - 1])
    ensures Deepest(events, After(h, events[|events| - 1]).stats.maxDepth)
  {
    var n := |events| - 1;
    var before := events[..n];
    var h' := After(h, events[n]);
    assert before[..n] == before && events[..n + 1] == events;
    assert DepthAfter(before[..n]) <= h.stats.maxDepth;
    forall i | 0 <= i <= n + 1 ensures DepthAfter(events[..i]) <= h'.stats.maxDepth {
      if i <= n {
        assert events[..i] == before[..i];
      }
    }
    var k :| 0 <= k <= n && DepthAfter(before[..k]) == h.stats.maxDepth;
    assert events[..k] == before[..k];
    if h'.stats.maxDepth != h.stats.maxDepth {
      assert DepthAfter(events[..n + 1]) == h'.stats.maxDepth;
    }
  }
}
