/** The circuit breaker and the whole reservation decision, told from the history of events alone. */
module Breaker {
  import opened Basics
  import opened Budget

  // ---- The history --------------------------------------------------------------------------

  /** The i-th event settles a lease held at that time. */
  predicate Settles(p: Policy, events: seq<Event>, i: nat)
    requires i < |events|
  {
    var attempts := Run(p, EMPTY, events[..i]).attempts;
    events[i].Finishing? && events[i].txn in attempts && attempts[events[i].txn].Leased?
  }

  predicate Fails(p: Policy, events: seq<Event>, i: nat)
    requires i < |events|
  {
    Settles(p, events, i) && !events[i].success
  }

  /** Failed settlements among the first `n` events since the last success that came with the breaker closed. */
  ghost function Streak(p: Policy, events: seq<Event>, n: nat): nat
    requires n <= |events|
    decreases n, 0
  {
    if n == 0 then 0
    else if !Settles(p, events, n - 1) then Streak(p, events, n - 1)
    else if !events[n - 1].success then Streak(p, events, n - 1) + 1
    else if Barred(p, events, n - 1, events[n - 1].now) then Streak(p, events, n - 1)
    else 0
  }

  /** The i-th event is a failure that completes, or prolongs, a streak as long as the threshold. */
  ghost predicate Trips(p: Policy, events: seq<Event>, i: nat)
    requires i < |events|
    decreases i + 1, 1
  {
    Fails(p, events, i) && Streak(p, events, i + 1) >= p.failureThreshold
  }

  /** Such a failure happened among the first `n` events, less than a cooldown before `now`. */
  ghost predicate Barred(p: Policy, events: seq<Event>, n: nat, now: real)
    requires n <= |events|
    decreases n, 2
  {
    exists i :: 0 <= i < n && Trips(p, events, i) && now < events[i].now + p.cooldown
  }

  // ---- Runs grow at the end -----------------------------------------------------------------

  lemma {:induction false} RunThen(p: Policy, l: Ledger, events: seq<Event>, e: Event)
    ensures Run(p, l, events + [e]) == Apply(p, Run(p, l, events), e)
    decreases |events|
  {
    hide Apply;
    if events == [] {
      assert [e][1..] == [];
      assert Run(p, Apply(p, l, e), []) == Apply(p, l, e);
      assert [] + [e] == [e];
    } else {
      assert (events + [e])[1..] == events[1..] + [e];
      RunThen(p, Apply(p, l, events[0]), events[1..], e);
    }
  }

  lemma RunTo(p: Policy, events: seq<Event>, n: nat)
    requires n < |events|
    ensures Run(p, EMPTY, events[..n + 1]) == Apply(p, Run(p, EMPTY, events[..n]), events[n])
  {
    hide Apply, Run;
    assert events[..n + 1] == events[..n] + [events[n]];
    RunThen(p, EMPTY, events[..n], events[n]);
  }

  /** The time of the last of the first `n` events. */
  function TimeAt(clock: real, events: seq<Event>, n: nat): real
    requires n <= |events|
  {
    if n == 0 then clock else events[n - 1].now
  }

  lemma {:induction false} TimesGrow(clock: real, events: seq<Event>, n: nat)
    requires Ordered(clock, events) && n < |events|
    ensures clock <= TimeAt(clock, events, n) <= events[n].now
    decreases |events|
  {
    if n > 0 {
      TimesGrow(events[0].now, events[1..], n - 1);
    }
  }

  lemma {:induction false} LastIsTimeAt(clock: real, events: seq<Event>)
    ensures LastTime(clock, events) == TimeAt(clock, events, |events|)
    decreases |events|
  {
    if events != [] {
      LastIsTimeAt(events[0].now, events[1..]);
    }
  }

  // ---- The breaker row follows the history --------------------------------------------------

  ghost predicate Agrees(p: Policy, events: seq<Event>, n: nat, l: Ledger, now: real)
    requires n <= |events|
  {
    l.openUntil > now <==> Barred(p, events, n, now)
  }

  /** The breaker row after the first `n` events says what the history says, from the last of them on. */
  ghost predicate Follows(p: Policy, clock: real, events: seq<Event>, n: nat, l: Ledger)
    requires n <= |events|
  {
    && l.failures == Streak(p, events, n)
    && forall now :: now >= TimeAt(clock, events, n) ==> Agrees(p, events, n, l, now)
  }

  lemma BarredThen(p: Policy, events: seq<Event>, n: nat, now: real)
    requires n < |events|
    ensures Barred(p, events, n + 1, now)
            <==> Barred(p, events, n, now) || (Trips(p, events, n) && now < events[n].now + p.cooldown)
  {
    hide Trips;
  }

  /** What one settlement does to the breaker row. */
  lemma SettlementFacts(p: Policy, l: Ledger, e: Event)
    requires e.Finishing? && e.txn in l.attempts && l.attempts[e.txn].Leased?
    ensures var n := Apply(p, l, e);
            if !e.success then
              && n.failures == l.failures + 1
              && n.openUntil == if n.failures >= p.failureThreshold then MaxReal(l.openUntil, e.now + p.cooldown)
                                else l.openUntil
            else if l.openUntil > e.now then n.failures == l.failures && n.openUntil == l.openUntil
            else n.failures == 0 && n.openUntil == 0.0
  {
  }

  lemma OthersLeaveBreaker(p: Policy, l: Ledger, e: Event)
    requires !(e.Finishing? && e.txn in l.attempts && l.attempts[e.txn].Leased?)
    ensures Apply(p, l, e).failures == l.failures && Apply(p, l, e).openUntil == l.openUntil
  {
  }

  lemma FollowsThen(p: Policy, clock: real, events: seq<Event>, n: nat, l: Ledger)
    requires p.Valid() && clock >= 0.0 && Ordered(clock, events) && n < |events|
    requires l == Run(p, EMPTY, events[..n]) && Follows(p, clock, events, n, l)
    ensures Follows(p, clock, events, n + 1, Apply(p, l, events[n]))
  {
    hide Apply, Run, Barred;
    var e := events[n];
    TimesGrow(clock, events, n);
    if Settles(p, events, n) {
      SettlementFacts(p, l, e);
    } else {
      OthersLeaveBreaker(p, l, e);
    }
    var later, m := Apply(p, l, e), n + 1;
    assert Agrees(p, events, n, l, e.now);
    forall now | now >= e.now
      ensures Agrees(p, events, m, later, now)
    {
      BarredThen(p, events, n, now);
      assert Agrees(p, events, n, l, now);
    }
  }

  /** Main result: over every ordered run from the empty tables, the failures on record are the current streak
      of failed settlements, and the breaker is open at an instant exactly if a failure that completed a
      streak as long as the threshold lies less than a cooldown back. */
  lemma {:induction false} BreakerFollowsHistory(p: Policy, clock: real, events: seq<Event>, n: nat)
    requires p.Valid() && clock >= 0.0 && Ordered(clock, events) && n <= |events|
    ensures Follows(p, clock, events, n, Run(p, EMPTY, events[..n]))
  {
    hide Apply, Ordered;
    if n > 0 {
      hide Follows, Run;
      BreakerFollowsHistory(p, clock, events, n - 1);
      FollowsThen(p, clock, events, n - 1, Run(p, EMPTY, events[..n - 1]));
      RunTo(p, events, n - 1);
    }
  }

  /** As many failed settlements in a row as the threshold bar the breaker for a cooldown from the last. */
  lemma FailuresOpen(p: Policy, events: seq<Event>, m: nat, n: nat, now: real)
    requires p.Valid() && m + p.failureThreshold <= n <= |events|
    requires forall i :: m <= i < n ==> Fails(p, events, i)
    ensures now < events[n - 1].now + p.cooldown ==> Barred(p, events, n, now)
  {
    StreakGrows(p, events, m, n);
    if now < events[n - 1].now + p.cooldown {
      assert Trips(p, events, n - 1);
    }
  }

  lemma {:induction false} StreakGrows(p: Policy, events: seq<Event>, m: nat, n: nat)
    requires m <= n <= |events| && forall i :: m <= i < n ==> Fails(p, events, i)
    ensures Streak(p, events, n) >= n - m
    decreases n
  {
    hide Settles, Barred;
    if n > m {
      assert Fails(p, events, n - 1);
      StreakGrows(p, events, m, n - 1);
    }
  }

  // ---- Reservations are decided by the history ----------------------------------------------

  /** Transactions whose call may still be running: reserved, unfinished, and within the call deadline and
      five seconds of grace. */
  function Running(p: Policy, l: Ledger, now: real): set<string> {
    set x | x in l.attempts.Keys && l.attempts[x].Leased? && now - ReservedAt(p, l.attempts[x]) < p.timeout + 5.0
  }

  /** Main result: over every ordered run from the empty tables, what a reservation is answered is told by
      the events before it and the attempts on record: a refusal names the first of the four obstacles there
      is, and without one the transaction is reserved, with its slot taken from this instant on. */
  lemma ReservationIsDecided(p: Policy, clock: real, events: seq<Event>, txn: string, now: real)
    requires p.Valid() && clock >= 0.0 && Ordered(clock, events) && LastTime(clock, events) <= now
    ensures var l := Run(p, EMPTY, events);
            var n := Run(p, EMPTY, events + [Reserving(txn, now)]);
            var attempted, barred := txn in l.attempts, Barred(p, events, |events|, now);
            var exhausted := |ReservedOn(p, l, UtcDay(now))| >= p.dailyCalls;
            var crowded := |Running(p, l, now)| >= p.concurrentCalls;
            && Decide(l, txn, p, now)
               == (if attempted then AlreadyAttempted else if barred then CircuitOpen
                   else if exhausted then DailyBudgetExhausted else if crowded then ConcurrencyLimit else Granted)
            && (if attempted || barred || exhausted || crowded then n == l
                else txn in Running(p, n, now) && n.attempts.Keys == l.attempts.Keys + {txn}
                     && txn in ReservedOn(p, n, UtcDay(now)))
  {
    var l := Run(p, EMPTY, events);
    assert events[..|events|] == events;
    BreakerFollowsHistory(p, clock, events, |events|);
    LastIsTimeAt(clock, events);
    assert Agrees(p, events, |events|, l, now);
    assert |ReservedOn(p, EMPTY, UtcDay(now))| == Calls(EMPTY, UtcDay(now));
    CounterCountsReservations(p, EMPTY, events, UtcDay(now));
    RunThen(p, EMPTY, events, Reserving(txn, now));
    hide Run, Barred, ReservedOn, Calls, UtcDay, LastTime, Ordered;
    assert Running(p, l, now) == Active(l.attempts, now);
  }
}
