// proxyshop_support/trust_ledger.py: a publisher that never raises, and its account of what was lost.
module TrustLedger {
  import opened Prelude

  const MAX_UNDELIVERED: nat := 512

  datatype Event = Event(id: string, kind: string)

  /** What the POST came to: an exception, or an HTTP status. */
  datatype Outcome = Raised(reason: string) | Answered(status: int)

  /** `STATUS` stands for the reason a refusing status is given; the number is kept. */
  datatype Reason = Described(text: string) | HttpStatus(status: int)

  datatype Failure = Failure(id: string, reason: Reason)

  datatype Line = ErrorLine(reason: Reason, kind: string) | InfoLine(missed: nat)

  datatype Publish = Publish(event: Event, outcome: Outcome)

  datatype Status = Status(delivering: bool, delivered: nat, lost: nat, lastFailure: Option<Reason>)

  // ---------------------------------------------------------------------------------
  // What a run of publishes amounts to

  predicate Landed(p: Publish) {
    p.outcome.Answered? && p.outcome.status < 400
  }

  function ReasonOf(o: Outcome): Reason {
    match o
    case Raised(reason) => Described(reason)
    case Answered(status) => HttpStatus(status)
  }

  ghost function Failures(run: seq<Publish>): seq<Failure> {
    if run == [] then []
    else
      var p := run[|run| - 1];
      Failures(run[..|run| - 1]) + if Landed(p) then [] else [Failure(p.event.id, ReasonOf(p.outcome))]
  }

  ghost function LandedIn(run: seq<Publish>): set<nat> {
    set i: nat | i < |run| && Landed(run[i])
  }

  ghost predicate Delivering(run: seq<Publish>) {
    run == [] || Landed(run[|run| - 1])
  }

  /** How many publishes have failed since the last one that landed. */
  ghost function Outage(run: seq<Publish>): nat {
    if Delivering(run) then 0 else 1 + Outage(run[..|run| - 1])
  }

  /** One line where an outage begins, one where it ends. */
  ghost function Lines(run: seq<Publish>): seq<Line> {
    if run == [] then []
    else
      var before, p := run[..|run| - 1], run[|run| - 1];
      Lines(before) +
      if Landed(p) && !Delivering(before) then [InfoLine(Outage(before))]
      else if !Landed(p) && Delivering(before) then [ErrorLine(ReasonOf(p.outcome), p.event.kind)]
      else []
  }

  function Last<T>(s: seq<T>, n: nat): (r: seq<T>)
    ensures |r| == Min(n, |s|)
  {
    if |s| <= n then s else s[|s| - n..]
  }

  // ---------------------------------------------------------------------------------
  // The publisher

  class Publisher {
    var delivered: nat
    var lost: nat
    var undelivered: seq<Failure>
    var delivering: bool
    var lostInThisOutage: nat
    var log: seq<Line>
    ghost var run: seq<Publish>

    /** Every field is what the publishes so far make it. */
    ghost predicate Valid()
      reads this
    {
      && delivered == |LandedIn(run)| && lost == |Failures(run)|
      && undelivered == Last(Failures(run), MAX_UNDELIVERED)
      && delivering == Delivering(run) && lostInThisOutage == Outage(run)
      && log == Lines(run)
    }

    constructor ()
      ensures Valid() && run == []
    {
      delivered, lost, undelivered, delivering, lostInThisOutage, log, run := 0, 0, [], true, 0, [], [];
    }

    method PublishOne(event: Event, outcome: Outcome) returns (landed: bool)
      requires Valid()
      modifies this
      ensures Valid() && run == old(run) + [Publish(event, outcome)]
      ensures landed <==> Landed(Publish(event, outcome))
    {
      ghost var p := Publish(event, outcome);
      ghost var before := run;
      RunMore(before, p);
      match outcome
      case Raised(reason) =>
        Failed(event, Described(reason));
        run := before + [p];
        return false;
      case Answered(status) =>
        if status >= 400 {
          Failed(event, HttpStatus(status));
          run := before + [p];
          return false;
        }
        TookOne();
        run := before + [p];
        return true;
    }

    method Failed(event: Event, reason: Reason)
      modifies this`undelivered, this`lost, this`lostInThisOutage, this`delivering, this`log
      ensures undelivered == Last(old(undelivered) + [Failure(event.id, reason)], MAX_UNDELIVERED)
      ensures lost == old(lost) + 1 && lostInThisOutage == old(lostInThisOutage) + 1 && !delivering
      ensures log == if old(delivering) then old(log) + [ErrorLine(reason, event.kind)] else old(log)
    {
      undelivered := Last(undelivered + [Failure(event.id, reason)], MAX_UNDELIVERED);
      lost := lost + 1;
      lostInThisOutage := lostInThisOutage + 1;
      if delivering {
        delivering := false;
        log := log + [ErrorLine(reason, event.kind)];
      }
    }

    /** `_landed` */
    method TookOne()
      modifies this`delivered, this`delivering, this`log, this`lostInThisOutage
      ensures delivered == old(delivered) + 1 && delivering
      ensures log == if old(delivering) then old(log) else old(log) + [InfoLine(old(lostInThisOutage))]
      ensures lostInThisOutage == if old(delivering) then old(lostInThisOutage) else 0
    {
      delivered := delivered + 1;
      if !delivering {
        delivering := true;
        log := log + [InfoLine(lostInThisOutage)];
        lostInThisOutage := 0;
      }
    }

    method ReadStatus() returns (s: Status)
      requires Valid()
      ensures s.delivering == Delivering(run) && s.delivered + s.lost == |run| && s.lost == |Failures(run)|
      ensures s.lastFailure == if Failures(run) == [] then None else Some(Failures(run)[|Failures(run)| - 1].reason)
    {
      Conserved(run);
      s := Status(delivering, delivered, lost,
        if undelivered == [] then None else Some(undelivered[|undelivered| - 1].reason));
    }
  }

  lemma RunMore(run: seq<Publish>, p: Publish)
    ensures var more := run + [p];
      && Failures(more) == (if Landed(p) then Failures(run)
        else Failures(run) + [Failure(p.event.id, ReasonOf(p.outcome))])
      && |LandedIn(more)| == |LandedIn(run)| + (if Landed(p) then 1 else 0)
      && Delivering(more) == Landed(p) && Outage(more) == (if Landed(p) then 0 else 1 + Outage(run))
      && Lines(more) == Lines(run) +
        (if Landed(p) && !Delivering(run) then [InfoLine(Outage(run))]
         else if !Landed(p) && Delivering(run) then [ErrorLine(ReasonOf(p.outcome), p.event.kind)]
         else [])
    ensures !Landed(p) ==>
      Last(Last(Failures(run), MAX_UNDELIVERED) + [Failure(p.event.id, ReasonOf(p.outcome))], MAX_UNDELIVERED)
      == Last(Failures(run + [p]), MAX_UNDELIVERED)
  {
    var more := run + [p];
    assert more[..|run|] == run;
    assert LandedIn(more) == if Landed(p) then LandedIn(run) + {|run|} else LandedIn(run);
  }

  // ---------------------------------------------------------------------------------
  // Over whole runs

  /** Every publish was delivered or lost. */
  lemma {:induction false} Conserved(run: seq<Publish>)
    ensures |LandedIn(run)| + |Failures(run)| == |run|
  {
    if run != [] {
      var before, p := run[..|run| - 1], run[|run| - 1];
      assert run == before + [p];
      Conserved(before);
      RunMore(before, p);
    }
  }

  ghost function Errors(log: seq<Line>): nat {
    if log == [] then 0 else Errors(log[..|log| - 1]) + if log[|log| - 1].ErrorLine? then 1 else 0
  }

  ghost function Infos(log: seq<Line>): nat {
    if log == [] then 0 else Infos(log[..|log| - 1]) + if log[|log| - 1].InfoLine? then 1 else 0
  }

  ghost function Reported(log: seq<Line>): nat {
    if log == [] then 0 else Reported(log[..|log| - 1]) + if log[|log| - 1].InfoLine? then log[|log| - 1].missed else 0
  }

  lemma LogMore(log: seq<Line>, l: Line)
    ensures Errors(log + [l]) == Errors(log) + (if l.ErrorLine? then 1 else 0)
    ensures Infos(log + [l]) == Infos(log) + (if l.InfoLine? then 1 else 0)
    ensures Reported(log + [l]) == Reported(log) + (if l.InfoLine? then l.missed else 0)
  {
    assert (log + [l])[..|log|] == log;
  }

  /** The lines alternate, an ERROR first. */
  ghost predicate Alternate(log: seq<Line>) {
    forall i | 0 <= i < |log| :: log[i].ErrorLine? <==> i % 2 == 0
  }

  /** A log that balances: so many failures in all, of which the running outage has these. */
  ghost predicate Balances(log: seq<Line>, delivering: bool, outage: nat, failures: nat) {
    && Errors(log) == Infos(log) + (if delivering then 0 else 1)
    && Reported(log) + outage == failures
    && Alternate(log) && (|log| % 2 == 0 <==> delivering)
    && (outage == 0 <==> delivering)
  }

  lemma BalanceLost(log: seq<Line>, delivering: bool, outage: nat, failures: nat, l: Line)
    requires Balances(log, delivering, outage, failures) && l.ErrorLine?
    ensures Balances(if delivering then log + [l] else log, false, outage + 1, failures + 1)
  {
    LogMore(log, l);
    hide Errors, Infos, Reported;
  }

  lemma BalanceLanded(log: seq<Line>, delivering: bool, outage: nat, failures: nat)
    requires Balances(log, delivering, outage, failures)
    ensures Balances(if delivering then log else log + [InfoLine(outage)], true, 0, failures)
  {
    LogMore(log, InfoLine(outage));
    hide Errors, Infos, Reported;
  }

  lemma {:induction false} LogBalances(run: seq<Publish>)
    ensures Balances(Lines(run), Delivering(run), Outage(run), |Failures(run)|)
  {
    if run != [] {
      var before, p := run[..|run| - 1], run[|run| - 1];
      assert run == before + [p];
      LogBalances(before);
      RunMore(before, p);
      assert Lines(before) + [] == Lines(before);
      hide *;
      if Landed(p) {
        BalanceLanded(Lines(before), Delivering(before), Outage(before), |Failures(before)|);
      } else {
        BalanceLost(Lines(before), Delivering(before), Outage(before), |Failures(before)|,
          ErrorLine(ReasonOf(p.outcome), p.event.kind));
      }
    }
  }

  /**
   * The account over every run: delivered and lost add up to the publishes; ERROR lines are one more than
   * INFO lines exactly while events are not landing, and alternate with them; and the outages the INFO
   * lines report, with the one in progress, add up to what was lost.
   */
  lemma Account(run: seq<Publish>)
    ensures |LandedIn(run)| + |Failures(run)| == |run|
    ensures Errors(Lines(run)) == Infos(Lines(run)) + (if Delivering(run) then 0 else 1)
    ensures Reported(Lines(run)) + Outage(run) == |Failures(run)|
    ensures Alternate(Lines(run)) && (|Lines(run)| % 2 == 0 <==> Delivering(run))
  {
    Conserved(run);
    LogBalances(run);
    hide LandedIn, Lines, Errors, Infos, Reported, Failures, Outage, Delivering, Alternate;
  }
}
