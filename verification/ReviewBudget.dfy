/** The budget inside the review protocol: paid calls against the daily quota, workers against leases. */
module ReviewBudget {
  import opened ReviewProtocol
  import Alerts
  import Budget

  // ---- The ledger's part of a run ---------------------------------------------------------

  /** What a step does to the ledger, in the ledger's own events. */
  function LedgerEvents(s: System, e: Event): seq<Budget.Event> {
    if !e.Advance? || e.worker !in s.tasks then []
    else
      match s.tasks[e.worker]
      case Preparing(_, txn) => if e.evidenceValid then [Budget.Reserving(txn, e.now)] else []
      case Settling(_, txn, draft, _, _) =>
        [Budget.Finishing(txn, e.now, draft.Some?, SettledOutcome(s.tasks[e.worker]))]
      case _ => []
  }

  function LedgerRun(c: Config, s: System, events: seq<Event>): seq<Budget.Event>
    decreases |events|
  {
    if events == [] then [] else LedgerEvents(s, events[0]) + LedgerRun(c, Step(c, s, events[0]), events[1..])
  }

  /** Only a worker's own step reads the clock the budget is kept by. */
  function Clock(clock: real, e: Event): real {
    if e.Advance? then e.now else clock
  }

  predicate Ordered(clock: real, events: seq<Event>)
    decreases |events|
  {
    events == [] || (clock <= Clock(clock, events[0]) && Ordered(Clock(clock, events[0]), events[1..]))
  }

  function LastTime(clock: real, events: seq<Event>): real
    decreases |events|
  {
    if events == [] then clock else LastTime(Clock(clock, events[0]), events[1..])
  }

  lemma StepLedger(c: Config, s: System, e: Event)
    ensures Step(c, s, e).ledger == Budget.Run(c.policy, s.ledger, LedgerEvents(s, e))
    ensures |LedgerEvents(s, e)| <= 1 && forall x :: x in LedgerEvents(s, e) ==> e.Advance? && x.now == e.now
  {
    var events := LedgerEvents(s, e);
    if events != [] {
      assert events[1..] == [];
      assert Budget.Run(c.policy, s.ledger, events) == Budget.Apply(c.policy, s.ledger, events[0]);
    }
  }

  lemma OrderedFrom(clock: real, later: real, rest: seq<Budget.Event>)
    requires clock <= later && Budget.Ordered(later, rest)
    ensures Budget.Ordered(clock, rest) && Budget.LastTime(clock, rest) <= Budget.LastTime(later, rest)
  {
  }

  /** Every run of the protocol is, for its ledger, a run of the budget under the same clock. */
  lemma {:induction false} LedgerFollows(c: Config, s: System, clock: real, events: seq<Event>)
    requires Ordered(clock, events)
    ensures Run(c, s, events).ledger == Budget.Run(c.policy, s.ledger, LedgerRun(c, s, events))
    ensures Budget.Ordered(clock, LedgerRun(c, s, events))
    ensures Budget.LastTime(clock, LedgerRun(c, s, events)) <= LastTime(clock, events)
    decreases |events|
  {
    hide Step, LedgerEvents, Budget.Apply;
    if events != [] {
      var n, first := Step(c, s, events[0]), LedgerEvents(s, events[0]);
      var rest, next := LedgerRun(c, n, events[1..]), Clock(clock, events[0]);
      StepLedger(c, s, events[0]);
      LedgerFollows(c, n, next, events[1..]);
      if first == [] {
        assert first + rest == rest;
        OrderedFrom(clock, next, rest);
      } else {
        assert first == [first[0]] && first[0] in first;
        assert (first + rest)[0] == first[0] && (first + rest)[1..] == rest;
        assert first[1..] == [];
      }
    }
  }

  // ---- Workers that hold a lease ----------------------------------------------------------

  /** From its reservation until its settlement a worker holds the lease of its transaction. */
  predicate Holds(t: Task) {
    t.Calling? || t.Awaiting? || t.Settling?
  }

  ghost predicate HoldersInv(s: System) {
    && (forall w :: w in s.tasks && Holds(s.tasks[w]) ==>
          s.tasks[w].txn in s.ledger.attempts && s.ledger.attempts[s.tasks[w].txn].Leased?)
    && (forall w, v :: w in s.tasks && v in s.tasks && w != v && Holds(s.tasks[w]) && Holds(s.tasks[v]) ==>
          s.tasks[w].txn != s.tasks[v].txn)
  }

  /** A step of worker `w` that leaves the other holders' leases alone. */
  lemma HoldersStay(s: System, n: System, w: nat)
    requires HoldersInv(s) && n.tasks - {w} == s.tasks - {w}
    requires forall v :: v in s.tasks && v != w && Holds(s.tasks[v]) ==>
               s.tasks[v].txn in n.ledger.attempts && n.ledger.attempts[s.tasks[v].txn].Leased?
    requires w in n.tasks && Holds(n.tasks[w]) ==>
               && n.tasks[w].txn in n.ledger.attempts && n.ledger.attempts[n.tasks[w].txn].Leased?
               && forall v :: v in s.tasks && v != w && Holds(s.tasks[v]) ==> s.tasks[v].txn != n.tasks[w].txn
    ensures HoldersInv(n)
  {
    forall v | v in n.tasks && v != w
      ensures v in s.tasks && s.tasks[v] == n.tasks[v]
    {
      assert v in (n.tasks - {w}).Keys && (n.tasks - {w})[v] == n.tasks[v];
    }
  }

  lemma PrepareKeepsHolders(c: Config, s: System, w: nat, now: real, valid: bool)
    requires HoldersInv(s) && w in s.tasks && s.tasks[w].Preparing?
    ensures HoldersInv(Prepare(c, s, w, s.tasks[w].id, s.tasks[w].txn, now, valid))
  {
    hide DenialReason, Budget.UtcDay, Budget.Active, Budget.Calls;
    HoldersStay(s, Prepare(c, s, w, s.tasks[w].id, s.tasks[w].txn, now, valid), w);
  }

  lemma SettleKeepsHolders(c: Config, s: System, w: nat, now: real)
    requires HoldersInv(s) && w in s.tasks && s.tasks[w].Settling?
    ensures HoldersInv(Settle(c, s, w, s.tasks[w], now))
  {
    hide SettledOutcome;
    HoldersStay(s, Settle(c, s, w, s.tasks[w], now), w);
  }

  lemma StepKeepsHolders(c: Config, s: System, e: Event)
    requires HoldersInv(s)
    ensures HoldersInv(Step(c, s, e))
  {
    hide HoldersInv, Prepare, Settle, Alerts.CreateOnceStep, Alerts.FinishNarrativeStep, Alerts.UpdateStep;
    hide NewAlert, FreshId, NeedsAlert;
    var n := Step(c, s, e);
    HeldLeases(s);
    match e
    case Deliver(w, _, _, _) => HoldersStay(s, n, w);
    case Crash(w) => HoldersStay(s, n, w);
    case ReviewBy(_, _, _) => HoldersStay(s, n, 0);
    case Advance(w, now, valid, _) =>
      if w in s.tasks && s.tasks[w].Preparing? {
        PrepareKeepsHolders(c, s, w, now, valid);
      } else if w in s.tasks && s.tasks[w].Settling? {
        SettleKeepsHolders(c, s, w, now);
      } else {
        HoldersStay(s, n, w);
      }
  }

  lemma HeldLeases(s: System)
    requires HoldersInv(s)
    ensures forall w :: w in s.tasks && Holds(s.tasks[w]) ==>
              s.tasks[w].txn in s.ledger.attempts && s.ledger.attempts[s.tasks[w].txn].Leased?
    ensures forall w, v :: w in s.tasks && v in s.tasks && w != v && Holds(s.tasks[w]) && Holds(s.tasks[v]) ==>
              s.tasks[w].txn != s.tasks[v].txn
  {
  }

  lemma {:induction false} RunKeepsHolders(c: Config, s: System, events: seq<Event>)
    requires HoldersInv(s)
    ensures HoldersInv(Run(c, s, events))
    decreases |events|
  {
    hide Step, HoldersInv;
    if events != [] {
      StepKeepsHolders(c, s, events[0]);
      RunKeepsHolders(c, Step(c, s, events[0]), events[1..]);
    }
  }

  /** The workers whose lease has not expired at `instant`. */
  function Holding(s: System, instant: real): set<nat> {
    set w | w in s.tasks.Keys && Holds(s.tasks[w]) && s.tasks[w].txn in s.ledger.attempts
            && s.ledger.attempts[s.tasks[w].txn].expires > instant
  }

  /** The calls whose reservation fell on one UTC day. */
  function CallsOn(c: Config, s: System, day: int): set<Call> {
    set k | k in s.calls && k.txn in Budget.ReservedOn(c.policy, s.ledger, day)
  }

  /** A set whose elements have distinct images is no larger than a set that holds the images. */
  lemma {:induction false} ImagesFit<T(!new)>(a: set<T>, f: T -> string, b: set<string>)
    requires forall x :: x in a ==> f(x) in b
    requires forall x, y :: x in a && y in a && f(x) == f(y) ==> x == y
    ensures |a| <= |b|
    decreases a
  {
    if a != {} {
      var x :| x in a;
      ImagesFit(a - {x}, f, b - {f(x)});
    }
  }

  lemma HoldersFit(s: System, instant: real)
    requires HoldersInv(s)
    ensures |Holding(s, instant)| <= |Budget.Active(s.ledger.attempts, instant)|
  {
    ImagesFit(Holding(s, instant), w => if w in s.tasks && Holds(s.tasks[w]) then s.tasks[w].txn else "",
              Budget.Active(s.ledger.attempts, instant));
  }

  lemma CallsFit(c: Config, s: System, day: int)
    requires CallsInv(c, s)
    ensures |CallsOn(c, s, day)| <= |Budget.ReservedOn(c.policy, s.ledger, day)|
  {
    hide Budget.ReservedOn, Drafted;
    forall k, m | k in CallsOn(c, s, day) && m in CallsOn(c, s, day) && k.txn == m.txn
      ensures k == m
    {
      var i :| 0 <= i < |s.calls| && s.calls[i] == k;
      var j :| 0 <= j < |s.calls| && s.calls[j] == m;
    }
    ImagesFit(CallsOn(c, s, day), (k: Call) => k.txn, Budget.ReservedOn(c.policy, s.ledger, day));
  }

  /** Main result: over every interleaving with a non-decreasing clock, every paid call has its reservation
      on record, the calls reserved on any UTC day are within the daily limit, and the workers between
      reservation and settlement whose lease has not expired are within the concurrency limit. */
  lemma CallsStayWithinBudget(c: Config, clock: real, events: seq<Event>, day: int, instant: real)
    requires c.policy.Valid() && Ordered(clock, events) && instant >= LastTime(clock, events)
    ensures var s := Run(c, INITIAL, events);
            && (forall k :: k in s.calls ==> k.txn in s.ledger.attempts)
            && (forall i, j :: 0 <= i < j < |s.calls| ==> s.calls[i] != s.calls[j])
            && |CallsOn(c, s, day)| <= c.policy.dailyCalls
            && |Holding(s, instant)| <= c.policy.concurrentCalls
  {
    hide Run, CallsOn, Holding, Budget.ReservedOn, Budget.Active, LedgerRun;
    var s := Run(c, INITIAL, events);
    var ledgerEvents := LedgerRun(c, INITIAL, events);
    LedgerFollows(c, INITIAL, clock, events);
    Budget.BudgetHolds(c.policy, clock, ledgerEvents, "", day, instant);
    EmptyDay(c, day);
    Budget.CounterCountsReservations(c.policy, Budget.EMPTY, ledgerEvents, day);
    InitialInv(c);
    RunKeepsInv(c, INITIAL, events);
    InvParts(c, s);
    CallsFit(c, s, day);
    RunKeepsHolders(c, INITIAL, events);
    HoldersFit(s, instant);
  }

  lemma EmptyDay(c: Config, day: int)
    ensures |Budget.ReservedOn(c.policy, Budget.EMPTY, day)| == Budget.Calls(Budget.EMPTY, day)
  {
    assert Budget.ReservedOn(c.policy, Budget.EMPTY, day) == {};
  }
}
