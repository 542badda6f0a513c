/** The ledger of paid narrative calls: lifetime attempts, daily quota, leases and circuit breaker. */
module Budget {
  import opened Basics

  datatype Policy = Policy(dailyCalls: nat, concurrentCalls: nat, inputBytes: nat, outputTokens: nat,
                           timeout: real, failureThreshold: nat, cooldown: real)
  {
    predicate Valid() {
      && dailyCalls <= 1_000_000
      && 1 <= concurrentCalls <= 32
      && 512 <= inputBytes <= 65536
      && 64 <= outputTokens <= 2000
      && 0.0 < timeout <= 60.0
      && 1 <= failureThreshold <= 100
      && 1.0 <= cooldown <= 86400.0
    }
  }

  /** A transaction's one lifetime attempt. The outcome column is empty while the lease is held. */
  datatype Attempt = Leased(expires: real) | Finished(expires: real, outcome: string)

  /** The durable tables: calls per UTC day, attempts per transaction, and the single breaker row. */
  datatype Ledger = Ledger(days: map<int, nat>, attempts: map<string, Attempt>, failures: nat, openUntil: real)

  const EMPTY := Ledger(map[], map[], 0, 0.0)

  datatype Decision = Granted | AlreadyAttempted | CircuitOpen | DailyBudgetExhausted | ConcurrencyLimit

  function UtcDay(now: real): int {
    (now / 86400.0).Floor
  }

  function Calls(l: Ledger, day: int): nat {
    if day in l.days then l.days[day] else 0
  }

  /** Transactions whose lease is held and has not expired at `now`. */
  function Active(attempts: map<string, Attempt>, now: real): set<string> {
    set x | x in attempts.Keys && attempts[x].Leased? && attempts[x].expires > now
  }

  function Leases(attempts: map<string, Attempt>): set<string> {
    set x | x in attempts.Keys && attempts[x].Leased?
  }

  function Decide(l: Ledger, txn: string, p: Policy, now: real): Decision {
    if txn in l.attempts then AlreadyAttempted
    else if l.openUntil > now then CircuitOpen
    else if Calls(l, UtcDay(now)) >= p.dailyCalls then DailyBudgetExhausted
    else if |Active(l.attempts, now)| >= p.concurrentCalls then ConcurrencyLimit
    else Granted
  }

  function ReserveStep(l: Ledger, txn: string, p: Policy, now: real): Ledger {
    if Decide(l, txn, p, now).Granted?
    then l.(days := l.days[UtcDay(now) := Calls(l, UtcDay(now)) + 1],
            attempts := l.attempts[txn := Leased(now + p.timeout + 5.0)])
    else l
  }

  function FinishStep(l: Ledger, txn: string, success: bool, outcome: string, p: Policy, now: real): Ledger {
    if txn !in l.attempts || l.attempts[txn].Finished? then l
    else
      var settled := l.(attempts := l.attempts[txn := Finished(l.attempts[txn].expires, outcome)]);
      if success then
        if l.openUntil <= now then settled.(failures := 0, openUntil := 0.0) else settled
      else if l.failures + 1 >= p.failureThreshold then
        settled.(failures := l.failures + 1, openUntil := MaxReal(l.openUntil, now + p.cooldown))
      else
        settled.(failures := l.failures + 1)
  }

  datatype Statistics = Statistics(utcDay: int, reservedCalls: nat, dailyCallLimit: nat, activeReservations: nat,
                                   concurrencyLimit: nat, consecutiveFailures: nat, circuitOpen: bool, openUntil: real)

  class NarrativeBudget {
    var days: map<int, nat>
    var attempts: map<string, Attempt>
    var failures: nat
    var openUntil: real

    function State(): Ledger
      reads this
    {
      Ledger(days, attempts, failures, openUntil)
    }

    constructor ()
      ensures State() == EMPTY
    {
      days, attempts, failures, openUntil := map[], map[], 0, 0.0;
    }

    method Reserve(txn: string, p: Policy, now: real) returns (d: Decision)
      modifies this
      ensures d == Decide(old(State()), txn, p, now)
      ensures State() == ReserveStep(old(State()), txn, p, now)
    {
      var day := UtcDay(now);
      if txn in attempts {
        return AlreadyAttempted;
      }
      if openUntil > now {
        return CircuitOpen;
      }
      if (if day in days then days[day] else 0) >= p.dailyCalls {
        return DailyBudgetExhausted;
      }
      var active := |set x | x in attempts.Keys && attempts[x].Leased? && attempts[x].expires > now|;
      if active >= p.concurrentCalls {
        return ConcurrencyLimit;
      }
      days := days[day := (if day in days then days[day] else 0) + 1];
      attempts := attempts[txn := Leased(now + p.timeout + 5.0)];
      return Granted;
    }

    method Finish(txn: string, success: bool, outcome: string, p: Policy, now: real)
      modifies this
      ensures State() == FinishStep(old(State()), txn, success, outcome, p, now)
    {
      if txn in attempts && attempts[txn].Leased? {
        attempts := attempts[txn := Finished(attempts[txn].expires, outcome)];
        var count, deadline := failures, openUntil;
        if success && deadline <= now {
          count, deadline := 0, 0.0;
        } else if !success {
          count := count + 1;
          if count >= p.failureThreshold {
            deadline := MaxReal(deadline, now + p.cooldown);
          }
        }
        failures, openUntil := count, deadline;
      }
    }

    method GetStatistics(p: Policy, now: real) returns (s: Statistics)
      ensures s.reservedCalls == Calls(State(), s.utcDay) && s.dailyCallLimit == p.dailyCalls
      ensures s.utcDay as real * 86400.0 <= now < (s.utcDay + 1) as real * 86400.0
      ensures s.activeReservations == |Active(attempts, now)| && s.concurrencyLimit == p.concurrentCalls
      ensures s.consecutiveFailures == failures && s.openUntil == openUntil
      ensures forall txn :: s.circuitOpen && txn !in attempts ==> Decide(State(), txn, p, now) == CircuitOpen
      ensures !s.circuitOpen ==> openUntil <= now
    {
      var day := UtcDay(now);
      var calls := if day in days then days[day] else 0;
      var active := |set x | x in attempts.Keys && attempts[x].Leased? && attempts[x].expires > now|;
      s := Statistics(day, calls, p.dailyCalls, active, p.concurrentCalls, failures, openUntil > now, openUntil);
    }
  }

  // ---- Runs -------------------------------------------------------------------------------
  // The tables are durable, so a restart or a second connection is just the next event.

  datatype Event =
    | Reserving(txn: string, now: real)
    | Finishing(txn: string, now: real, success: bool, outcome: string)

  function Apply(p: Policy, l: Ledger, e: Event): Ledger {
    match e
    case Reserving(txn, now) => ReserveStep(l, txn, p, now)
    case Finishing(txn, now, success, outcome) => FinishStep(l, txn, success, outcome, p, now)
  }

  predicate Grants(p: Policy, l: Ledger, e: Event) {
    e.Reserving? && Decide(l, e.txn, p, e.now).Granted?
  }

  function Run(p: Policy, l: Ledger, events: seq<Event>): Ledger
    decreases |events|
  {
    if events == [] then l else Run(p, Apply(p, l, events[0]), events[1..])
  }

  predicate Ordered(clock: real, events: seq<Event>)
    decreases |events|
  {
    events == [] || (clock <= events[0].now && Ordered(events[0].now, events[1..]))
  }

  function LastTime(clock: real, events: seq<Event>): real
    decreases |events|
  {
    if events == [] then clock else LastTime(events[0].now, events[1..])
  }

  datatype Selector = Of(txn: string) | On(day: int) | Between(from: real, to: real)

  predicate Matches(s: Selector, e: Event) {
    match s
    case Of(txn) => e.txn == txn
    case On(day) => UtcDay(e.now) == day
    case Between(from, to) => from <= e.now < to
  }

  /** How many reservations of a kind a run grants. */
  function GrantCount(p: Policy, l: Ledger, events: seq<Event>, s: Selector): nat
    decreases |events|
  {
    if events == [] then 0
    else
      (if Grants(p, l, events[0]) && Matches(s, events[0]) then 1 else 0)
      + GrantCount(p, Apply(p, l, events[0]), events[1..], s)
  }

  // ---- Quota, lifetime attempts and leases ------------------------------------------------

  lemma {:induction false} AttemptedIsFinal(p: Policy, l: Ledger, events: seq<Event>, txn: string)
    ensures GrantCount(p, l, events, Of(txn)) + (if txn in l.attempts then 1 else 0) <= 1
    ensures txn in Run(p, l, events).attempts <==>
            txn in l.attempts || GrantCount(p, l, events, Of(txn)) == 1
    decreases |events|
  {
    if events != [] {
      AttemptedIsFinal(p, Apply(p, l, events[0]), events[1..], txn);
    }
  }

  lemma {:induction false} DayCounts(p: Policy, l: Ledger, events: seq<Event>, day: int)
    ensures Calls(Run(p, l, events), day) == Calls(l, day) + GrantCount(p, l, events, On(day))
    ensures Calls(l, day) <= p.dailyCalls ==> Calls(Run(p, l, events), day) <= p.dailyCalls
    decreases |events|
  {
    if events != [] {
      DayCounts(p, Apply(p, l, events[0]), events[1..], day);
    }
  }

  /** At every instant from `clock` on, the held leases fit the concurrency limit. */
  ghost predicate LeasesFit(p: Policy, l: Ledger, clock: real) {
    forall t :: t >= clock ==> |Active(l.attempts, t)| <= p.concurrentCalls
  }

  /** From `e` on, only a grant adds to the active leases, and expiry and settlement remove some. */
  lemma ActiveAfter(p: Policy, l: Ledger, e: Event, t: real)
    requires t >= e.now
    ensures Active(l.attempts, t) <= Active(l.attempts, e.now)
    ensures Active(Apply(p, l, e).attempts, t) <= Active(l.attempts, t) + if Grants(p, l, e) then {e.txn} else {}
    ensures Grants(p, l, e) ==> |Active(l.attempts, e.now)| < p.concurrentCalls
  {
  }

  lemma EventKeepsLeasesFit(p: Policy, l: Ledger, clock: real, e: Event)
    requires LeasesFit(p, l, clock) && clock <= e.now
    ensures LeasesFit(p, Apply(p, l, e), e.now)
  {
    hide Active, Apply, Grants;
    forall t | t >= e.now
      ensures |Active(Apply(p, l, e).attempts, t)| <= p.concurrentCalls
    {
      ActiveAfter(p, l, e, t);
      var after := Active(Apply(p, l, e).attempts, t);
      if Grants(p, l, e) {
        SubsetSize(after, Active(l.attempts, e.now) + {e.txn});
      } else {
        SubsetSize(after, Active(l.attempts, t));
      }
    }
  }

  lemma {:induction false} RunKeepsLeasesFit(p: Policy, l: Ledger, clock: real, events: seq<Event>)
    requires LeasesFit(p, l, clock) && Ordered(clock, events)
    ensures LeasesFit(p, Run(p, l, events), LastTime(clock, events))
    decreases |events|
  {
    if events != [] {
      EventKeepsLeasesFit(p, l, clock, events[0]);
      RunKeepsLeasesFit(p, Apply(p, l, events[0]), events[0].now, events[1..]);
    }
  }

  /** Main result: over every run from the empty tables, across restarts, a transaction is reserved
      at most once, each day's counter is the number of reservations granted that day and within the
      limit, and the unexpired leases never outnumber the concurrency limit. */
  lemma BudgetHolds(p: Policy, clock: real, events: seq<Event>, txn: string, day: int, instant: real)
    requires p.Valid() && Ordered(clock, events) && instant >= LastTime(clock, events)
    ensures GrantCount(p, EMPTY, events, Of(txn)) <= 1
    ensures Calls(Run(p, EMPTY, events), day) == GrantCount(p, EMPTY, events, On(day)) <= p.dailyCalls
    ensures |Active(Run(p, EMPTY, events).attempts, instant)| <= p.concurrentCalls
  {
    AttemptedIsFinal(p, EMPTY, events, txn);
    DayCounts(p, EMPTY, events, day);
    forall t | t >= clock
      ensures |Active(EMPTY.attempts, t)| <= p.concurrentCalls
    {
      assert Active(EMPTY.attempts, t) == {};
    }
    RunKeepsLeasesFit(p, EMPTY, clock, events);
  }

  /** When an attempt was reserved, told from its expiry, which settlement keeps. */
  function ReservedAt(p: Policy, a: Attempt): real {
    a.expires - p.timeout - 5.0
  }

  /** The transactions reserved on one UTC day. */
  function ReservedOn(p: Policy, l: Ledger, day: int): set<string> {
    set x | x in l.attempts.Keys && UtcDay(ReservedAt(p, l.attempts[x])) == day
  }

  lemma ReservationsAfter(p: Policy, l: Ledger, e: Event, day: int)
    ensures ReservedOn(p, Apply(p, l, e), day)
            == ReservedOn(p, l, day) + if Grants(p, l, e) && UtcDay(e.now) == day then {e.txn} else {}
    ensures Grants(p, l, e) ==> e.txn !in ReservedOn(p, l, day)
    ensures Calls(Apply(p, l, e), day) == Calls(l, day) + if Grants(p, l, e) && UtcDay(e.now) == day then 1 else 0
  {
    hide UtcDay;
    if Grants(p, l, e) {
      assert ReservedAt(p, Leased(e.now + p.timeout + 5.0)) == e.now;
    }
  }

  /** The daily counter counts the attempts on record that were reserved that day. */
  lemma {:induction false} CounterCountsReservations(p: Policy, l: Ledger, events: seq<Event>, day: int)
    requires |ReservedOn(p, l, day)| == Calls(l, day)
    ensures |ReservedOn(p, Run(p, l, events), day)| == Calls(Run(p, l, events), day)
    decreases |events|
  {
    hide ReservedOn, Calls, Apply, Grants;
    if events != [] {
      ReservationsAfter(p, l, events[0], day);
      CounterCountsReservations(p, Apply(p, l, events[0]), events[1..], day);
    }
  }

  lemma {:induction false} LeaseIsKept(p: Policy, l: Ledger, events: seq<Event>, txn: string, expires: real)
    requires txn in l.attempts && l.attempts[txn] == Leased(expires)
    requires forall e :: e in events && e.Finishing? ==> e.txn != txn
    ensures txn in Run(p, l, events).attempts && Run(p, l, events).attempts[txn] == Leased(expires)
    decreases |events|
  {
    if events != [] {
      assert forall e :: e in events[1..] ==> e in events;
      LeaseIsKept(p, Apply(p, l, events[0]), events[1..], txn, expires);
    }
  }

  /** A granted lease that nobody finishes occupies its slot for the whole call deadline and five
      seconds of grace, and frees it at that very instant. */
  lemma LeaseLifetime(p: Policy, l: Ledger, txn: string, now: real, events: seq<Event>, t: real)
    requires Grants(p, l, Reserving(txn, now))
    requires forall e :: e in events && e.Finishing? ==> e.txn != txn
    ensures txn in Active(Run(p, ReserveStep(l, txn, p, now), events).attempts, t) <==> t - now < p.timeout + 5.0
  {
    LeaseIsKept(p, ReserveStep(l, txn, p, now), events, txn, now + p.timeout + 5.0);
  }

  // ---- Circuit breaker --------------------------------------------------------------------

  /** The consecutive failures have reached the threshold exactly while a deadline is recorded. */
  predicate BreakerInv(p: Policy, l: Ledger) {
    && (l.failures >= p.failureThreshold <==> l.openUntil != 0.0)
    && l.openUntil >= 0.0
  }

  lemma {:induction false} BreakerStaysConsistent(p: Policy, l: Ledger, clock: real, events: seq<Event>)
    requires p.Valid() && BreakerInv(p, l) && Ordered(clock, events) && clock >= 0.0
    ensures BreakerInv(p, Run(p, l, events))
    decreases |events|
  {
    if events != [] {
      BreakerStaysConsistent(p, Apply(p, l, events[0]), events[0].now, events[1..]);
    }
  }

  /** A deadline is never withdrawn before it has passed, so nothing is granted before it. */
  lemma {:induction false} NothingBeforeDeadline(p: Policy, l: Ledger, clock: real, events: seq<Event>,
                                                 from: real, deadline: real)
    requires Ordered(clock, events) && (l.openUntil >= deadline || clock >= deadline)
    ensures GrantCount(p, l, events, Between(from, deadline)) == 0
    decreases |events|
  {
    if events != [] {
      NothingBeforeDeadline(p, Apply(p, l, events[0]), events[0].now, events[1..], from, deadline);
    }
  }

  /** Main result: whatever deadline the breaker holds after any first part of a run, no later event
      is granted before that deadline, however late older successes arrive. */
  lemma DeadlinesAreHonoured(p: Policy, clock: real, before: seq<Event>, after: seq<Event>, from: real)
    requires p.Valid() && Ordered(clock, before) && Ordered(LastTime(clock, before), after) && clock >= 0.0
    ensures var l := Run(p, EMPTY, before);
            && BreakerInv(p, l)
            && GrantCount(p, l, after, Between(from, l.openUntil)) == 0
  {
    BreakerStaysConsistent(p, EMPTY, clock, before);
    NothingBeforeDeadline(p, Run(p, EMPTY, before), LastTime(clock, before), after, from,
                          Run(p, EMPTY, before).openUntil);
  }

  /** After the cooldown one failed probe reopens the breaker for a full cooldown, one successful
      probe closes it, and a success that comes before the deadline leaves it as it was. */
  lemma ProbeDecides(p: Policy, l: Ledger, txn: string, outcome: string, now: real)
    requires p.Valid() && BreakerInv(p, l) && l.openUntil != 0.0 && now >= 0.0
    requires txn in l.attempts && l.attempts[txn].Leased?
    ensures var failed := FinishStep(l, txn, false, outcome, p, now);
            var passed := FinishStep(l, txn, true, outcome, p, now);
            && (l.openUntil <= now ==>
                  && failed.openUntil == now + p.cooldown && failed.failures >= p.failureThreshold
                  && passed.openUntil == 0.0 && passed.failures == 0)
            && (l.openUntil > now ==>
                  && passed.openUntil == l.openUntil && passed.failures == l.failures
                  && failed.openUntil >= l.openUntil)
  {
  }

  /** Finishing twice, or finishing what was never reserved, changes nothing. */
  lemma FinishIsIdempotent(p: Policy, l: Ledger, txn: string, s0: bool, o0: string, t0: real,
                           s1: bool, o1: string, t1: real)
    ensures FinishStep(FinishStep(l, txn, s0, o0, p, t0), txn, s1, o1, p, t1) == FinishStep(l, txn, s0, o0, p, t0)
    ensures txn !in l.attempts ==> FinishStep(l, txn, s0, o0, p, t0) == l
  {
  }

  // ---- Half-open bound --------------------------------------------------------------------

  /** Every finish reports a failure, and every lease is finished before it expires. */
  predicate FailingRun(p: Policy, l: Ledger, events: seq<Event>)
    decreases |events|
  {
    events == [] ||
    (&& (events[0].Finishing? ==> !events[0].success)
     && (forall x :: x in l.attempts.Keys && l.attempts[x].Leased? ==> l.attempts[x].expires > events[0].now)
     && FailingRun(p, Apply(p, l, events[0]), events[1..]))
  }

  lemma GrantTakesSlot(p: Policy, l: Ledger, e: Event)
    requires Grants(p, l, e)
    requires forall x :: x in l.attempts.Keys && l.attempts[x].Leased? ==> l.attempts[x].expires > e.now
    ensures |Leases(Apply(p, l, e).attempts)| == |Leases(l.attempts)| + 1 <= p.concurrentCalls
  {
    assert Active(l.attempts, e.now) == Leases(l.attempts);
    assert e.txn !in Leases(l.attempts);
    assert Leases(Apply(p, l, e).attempts) == Leases(l.attempts) + {e.txn};
  }

  /** A failing event leaves an opened breaker recorded, and if it does settle a lease, open for a
      full cooldown from then. */
  lemma FailureKeepsOpen(p: Policy, l: Ledger, e: Event)
    requires p.Valid() && BreakerInv(p, l) && l.openUntil != 0.0 && e.now >= 0.0
    requires e.Finishing? ==> !e.success
    ensures BreakerInv(p, Apply(p, l, e)) && Apply(p, l, e).openUntil != 0.0
    ensures Grants(p, l, e) || Apply(p, l, e) == l || Apply(p, l, e).openUntil >= e.now + p.cooldown
  {
  }

  /** Inside a window of one cooldown, each grant occupies a slot that only a finish could free, and
      a finish inside the window keeps the breaker open to its end. */
  lemma {:induction false} GrantsWithinCooldown(p: Policy, l: Ledger, clock: real, events: seq<Event>, start: real)
    requires p.Valid() && BreakerInv(p, l) && l.openUntil != 0.0 && start >= 0.0
    requires Ordered(clock, events) && FailingRun(p, l, events) && clock >= start
    ensures GrantCount(p, l, events, Between(start, start + p.cooldown)) + |Leases(l.attempts)|
            <= MaxInt(p.concurrentCalls, |Leases(l.attempts)|)
    decreases |events|
  {
    hide Decide, ReserveStep, FinishStep, Leases, Grants;
    if events != [] {
      var e := events[0];
      var l' := Apply(p, l, e);
      FailureKeepsOpen(p, l, e);
      if Grants(p, l, e) {
        GrantTakesSlot(p, l, e);
        GrantsWithinCooldown(p, l', e.now, events[1..], start);
      } else if l' == l {
        GrantsWithinCooldown(p, l, e.now, events[1..], start);
      } else {
        NothingBeforeDeadline(p, l', e.now, events[1..], start, start + p.cooldown);
      }
    }
  }

  /** Main result: while calls keep failing, from any state in which the breaker has opened, a
      half-open window as long as the cooldown grants at most the concurrency limit. */
  lemma {:induction false} HalfOpenBound(p: Policy, l: Ledger, clock: real, events: seq<Event>, start: real)
    requires p.Valid() && BreakerInv(p, l) && l.openUntil != 0.0 && clock >= 0.0 && start >= 0.0
    requires Ordered(clock, events) && FailingRun(p, l, events)
    ensures GrantCount(p, l, events, Between(start, start + p.cooldown)) <= p.concurrentCalls
    decreases |events|
  {
    if clock >= start {
      GrantsWithinCooldown(p, l, clock, events, start);
    } else if events != [] {
      if events[0].now >= start {
        GrantsWithinCooldown(p, l, start, events, start);
      } else {
        FailureKeepsOpen(p, l, events[0]);
        HalfOpenBound(p, Apply(p, l, events[0]), events[0].now, events[1..], start);
      }
    }
  }
}
