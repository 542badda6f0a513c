/** Leases counted at an instant behind the end of a run: exactly when they can outnumber the limit. */
module LeaseBound {
  import opened Basics
  import opened Identifiers
  import opened Budget

  /** Every run that ends at `end` leaves the leases unexpired at `t` within the concurrency limit. */
  ghost predicate LeasesBoundedAt(p: Policy, end: real, t: real) {
    forall clock, events :: Ordered(clock, events) && LastTime(clock, events) == end ==>
      |Active(Run(p, EMPTY, events).attempts, t)| <= p.concurrentCalls
  }

  function Names(n: nat): set<string> {
    set i | 0 <= i < n :: Label(i)
  }

  lemma {:induction false} NamesCount(n: nat)
    ensures |Names(n)| == n && Label(n) !in Names(n)
    ensures Names(n + 1) == Names(n) + {Label(n)}
  {
    hide Label;
    forall i | 0 <= i < n
      ensures Label(i) != Label(n)
    {
      LabelsDiffer(i, n);
    }
    if n > 0 {
      NamesCount(n - 1);
    }
  }

  /** The first `n` names, from the i-th on, all reserved at one instant. */
  function Filling(i: nat, n: nat, at: real): seq<Event>
    requires i <= n
    decreases n - i
  {
    if i == n then [] else [Reserving(Label(i), at)] + Filling(i + 1, n, at)
  }

  /** Exactly the first `n` names hold leases, all with the same expiry, and the breaker is closed. */
  ghost predicate Filled(l: Ledger, n: nat, expires: real) {
    && l.attempts.Keys == Names(n) && (forall x :: x in l.attempts ==> l.attempts[x] == Leased(expires))
    && (forall day :: Calls(l, day) <= n) && l.openUntil == 0.0
  }

  lemma FilledActive(l: Ledger, n: nat, expires: real, t: real)
    requires Filled(l, n, expires)
    ensures Active(l.attempts, t) == if t < expires then Names(n) else {}
  {
    hide Names;
  }

  lemma FilledNext(l: Ledger, n: nat, expires: real, txn: string, day: int)
    requires Filled(l, n, expires) && Names(n + 1) == Names(n) + {txn}
    ensures Filled(l.(days := l.days[day := Calls(l, day) + 1], attempts := l.attempts[txn := Leased(expires)]),
                   n + 1, expires)
  {
    hide Names;
    var next := l.(days := l.days[day := Calls(l, day) + 1], attempts := l.attempts[txn := Leased(expires)]);
    forall d
      ensures Calls(next, d) <= n + 1
    {
      assert Calls(l, d) <= n;
    }
  }

  /** A closed breaker, a free slot and quota left: a new name is granted. */
  lemma FilledGrants(p: Policy, l: Ledger, n: nat, expires: real, txn: string, now: real)
    requires p.Valid() && Filled(l, n, expires) && txn !in Names(n) && now >= 0.0
    requires n < p.dailyCalls && |Active(l.attempts, now)| < p.concurrentCalls
    ensures Grants(p, l, Reserving(txn, now))
  {
    hide Names, UtcDay, Active;
    assert Calls(l, UtcDay(now)) <= n;
  }

  lemma FillOne(p: Policy, l: Ledger, i: nat, at: real)
    requires p.Valid() && i < p.concurrentCalls < p.dailyCalls && at >= 0.0 && Filled(l, i, at + p.timeout + 5.0)
    ensures Filled(ReserveStep(l, Label(i), p, at), i + 1, at + p.timeout + 5.0)
  {
    hide Names, Label, UtcDay, Active, Filled, Decide, Calls;
    FilledActive(l, i, at + p.timeout + 5.0, at);
    NamesCount(i);
    FilledGrants(p, l, i, at + p.timeout + 5.0, Label(i), at);
    FilledNext(l, i, at + p.timeout + 5.0, Label(i), UtcDay(at));
  }

  lemma {:induction false} FillAll(p: Policy, l: Ledger, i: nat, at: real, last: Event, clock: real)
    requires p.Valid() && i <= p.concurrentCalls < p.dailyCalls && at >= 0.0 && Filled(l, i, at + p.timeout + 5.0)
    requires last.now == at + p.timeout + 5.0 && clock <= at
    ensures var events := Filling(i, p.concurrentCalls, at) + [last];
            && Ordered(clock, events) && LastTime(clock, events) == last.now
            && exists full :: Filled(full, p.concurrentCalls, last.now) && Run(p, l, events) == Apply(p, full, last)
    decreases p.concurrentCalls - i
  {
    hide Filled, ReserveStep, FinishStep, Names, Label;
    var events := Filling(i, p.concurrentCalls, at) + [last];
    if i == p.concurrentCalls {
      assert events == [last] && [last][1..] == [];
      assert Run(p, l, events) == Apply(p, l, last);
    } else {
      FillOne(p, l, i, at);
      FillAll(p, ReserveStep(l, Label(i), p, at), i + 1, at, last, at);
      assert events == [Reserving(Label(i), at)] + (Filling(i + 1, p.concurrentCalls, at) + [last]);
      assert events[1..] == Filling(i + 1, p.concurrentCalls, at) + [last];
    }
  }

  /** Filling every slot one lease-time before the end and reserving once more at the end leaves one
      lease too many for any earlier instant, at which the expired ones count again. */
  lemma OneLeaseTooMany(p: Policy, end: real, t: real)
    requires p.Valid() && p.concurrentCalls < p.dailyCalls && end >= p.timeout + 5.0 && t < end
    ensures exists clock, events :: Ordered(clock, events) && LastTime(clock, events) == end
              && |Active(Run(p, EMPTY, events).attempts, t)| == p.concurrentCalls + 1
  {
    hide Names, Label, UtcDay, Active, Filled, Decide, Calls, ReserveStep, Filling, Run, Ordered, LastTime;
    var n, at := p.concurrentCalls, end - p.timeout - 5.0;
    var last := Reserving(Label(n), end);
    NothingFilled(end);
    FillAll(p, EMPTY, 0, at, last, at);
    var events := Filling(0, n, at) + [last];
    var full :| Filled(full, n, end) && Run(p, EMPTY, events) == Apply(p, full, last);
    FilledActive(full, n, end, end);
    FilledActive(full, n, end, t);
    NamesCount(n);
    FilledGrants(p, full, n, end, Label(n), end);
    OneMoreLease(p, full, Label(n), end, t);
  }

  lemma NothingFilled(expires: real)
    ensures Filled(EMPTY, 0, expires)
  {
  }

  lemma OneMoreLease(p: Policy, l: Ledger, txn: string, now: real, t: real)
    requires p.Valid() && Grants(p, l, Reserving(txn, now)) && t < now
    ensures Active(ReserveStep(l, txn, p, now).attempts, t) == Active(l.attempts, t) + {txn}
    ensures txn !in Active(l.attempts, t)
  {
  }

  /** Every lease ever granted outlives the first lease-time after the epoch. */
  predicate GrantedSinceEpoch(p: Policy, l: Ledger) {
    l.openUntil >= 0.0 && forall x :: x in l.attempts ==> l.attempts[x].expires >= p.timeout + 5.0
  }

  lemma {:induction false} RunGrantsSinceEpoch(p: Policy, l: Ledger, events: seq<Event>)
    requires p.Valid() && GrantedSinceEpoch(p, l)
    ensures GrantedSinceEpoch(p, Run(p, l, events))
    decreases |events|
  {
    if events != [] {
      RunGrantsSinceEpoch(p, Apply(p, l, events[0]), events[1..]);
    }
  }

  lemma BoundedUntilExpiry(p: Policy, clock: real, events: seq<Event>, t: real)
    requires p.Valid() && Ordered(clock, events)
    requires t >= LastTime(clock, events) || LastTime(clock, events) < p.timeout + 5.0
    ensures |Active(Run(p, EMPTY, events).attempts, t)| <= p.concurrentCalls
  {
    var end, l := LastTime(clock, events), Run(p, EMPTY, events);
    var at := MaxReal(t, end);
    BudgetHolds(p, clock, events, "", 0, at);
    RunGrantsSinceEpoch(p, EMPTY, events);
    assert Active(l.attempts, t) <= Active(l.attempts, at);
    SubsetSize(Active(l.attempts, t), Active(l.attempts, at));
  }

  // ---- Several days -----------------------------------------------------------------------

  /** How long a lease lasts. */
  function Term(p: Policy): real {
    p.timeout + 5.0
  }

  lemma DayOf(time: real, day: int)
    ensures UtcDay(time) == day <==> day as real * 86400.0 <= time < (day + 1) as real * 86400.0
  {
    var q := time / 86400.0;
    Quotient(time, 86400.0);
    assert q.Floor == day <==> day as real <= q < (day + 1) as real;
  }

  lemma DaysOrdered(a: real, b: real)
    requires a <= b
    ensures UtcDay(a) <= UtcDay(b)
  {
    QuotientOrder(a, b, 86400.0);
  }

  /** Transactions reserved on any of the days from `first` to `last`. */
  function ReservedBetween(p: Policy, l: Ledger, first: int, last: int): set<string> {
    set x | x in l.attempts.Keys && first <= UtcDay(ReservedAt(p, l.attempts[x])) <= last
  }

  lemma {:induction false} DaysHold(p: Policy, l: Ledger, first: int, last: int)
    requires first <= last + 1
    requires forall day :: |ReservedOn(p, l, day)| <= p.dailyCalls
    ensures |ReservedBetween(p, l, first, last)| <= (last - first + 1) * p.dailyCalls
    decreases last - first + 1
  {
    hide UtcDay, ReservedAt;
    var days := ReservedBetween(p, l, first, last);
    if first == last + 1 {
      assert days == {};
    } else {
      var earlier := ReservedBetween(p, l, first, last - 1);
      DaysHold(p, l, first, last - 1);
      assert days <= earlier + ReservedOn(p, l, last);
      SubsetSize(days, earlier + ReservedOn(p, l, last));
      OneMoreDay(last - first, p.dailyCalls);
    }
  }

  lemma OneMoreDay(n: int, d: int)
    ensures (n + 1) * d == n * d + d
  {
  }

  /** No lease outlasts a term from `clock` on. */
  predicate ExpiresBy(p: Policy, l: Ledger, clock: real) {
    forall x :: x in l.attempts ==> l.attempts[x].expires <= clock + Term(p)
  }

  lemma {:induction false} RunExpiries(p: Policy, l: Ledger, clock: real, events: seq<Event>)
    requires Ordered(clock, events) && ExpiresBy(p, l, clock)
    ensures ExpiresBy(p, Run(p, l, events), LastTime(clock, events))
    decreases |events|
  {
    if events != [] {
      RunExpiries(p, Apply(p, l, events[0]), events[0].now, events[1..]);
    }
  }

  /** Days from the first a lease active at `t` can have been granted on to the end, both included. */
  function DaysSpanned(p: Policy, end: real, t: real): int {
    UtcDay(end) - UtcDay(MaxReal(t - Term(p), 0.0)) + 1
  }

  lemma ActiveIsRecent(p: Policy, clock: real, events: seq<Event>, t: real)
    requires p.Valid() && Ordered(clock, events)
    ensures var l, end := Run(p, EMPTY, events), LastTime(clock, events);
            Active(l.attempts, t) <= ReservedBetween(p, l, UtcDay(MaxReal(t - Term(p), 0.0)), UtcDay(end))
  {
    hide UtcDay, Run, Ordered, LastTime;
    var l, end := Run(p, EMPTY, events), LastTime(clock, events);
    RunExpiries(p, EMPTY, clock, events);
    RunGrantsSinceEpoch(p, EMPTY, events);
    forall x | x in Active(l.attempts, t)
      ensures x in ReservedBetween(p, l, UtcDay(MaxReal(t - Term(p), 0.0)), UtcDay(end))
    {
      var at := ReservedAt(p, l.attempts[x]);
      DaysOrdered(MaxReal(t - Term(p), 0.0), at);
      DaysOrdered(at, end);
    }
  }

  lemma QuotaBounds(p: Policy, clock: real, events: seq<Event>, t: real)
    requires p.Valid() && Ordered(clock, events)
    requires DaysSpanned(p, LastTime(clock, events), t) >= 0
    ensures |Active(Run(p, EMPTY, events).attempts, t)|
            <= DaysSpanned(p, LastTime(clock, events), t) * p.dailyCalls
  {
    hide UtcDay, Run, Ordered, LastTime, ReservedOn, ReservedBetween, Active, Calls;
    var l, end := Run(p, EMPTY, events), LastTime(clock, events);
    var first := UtcDay(MaxReal(t - Term(p), 0.0));
    forall day
      ensures |ReservedOn(p, l, day)| <= p.dailyCalls
    {
      NothingReserved(p, day);
      CounterCountsReservations(p, EMPTY, events, day);
      DayCounts(p, EMPTY, events, day);
    }
    ActiveIsRecent(p, clock, events, t);
    DaysHold(p, l, first, UtcDay(end));
    SubsetSize(Active(l.attempts, t), ReservedBetween(p, l, first, UtcDay(end)));
  }

  lemma NothingReserved(p: Policy, day: int)
    ensures |ReservedOn(p, EMPTY, day)| == 0 == Calls(EMPTY, day)
  {
    assert ReservedOn(p, EMPTY, day) == {};
  }

  // ---- Reserving day by day ---------------------------------------------------------------

  lemma {:induction false} RunConcat(p: Policy, l: Ledger, a: seq<Event>, b: seq<Event>)
    ensures Run(p, l, a + b) == Run(p, Run(p, l, a), b)
    decreases |a|
  {
    hide Apply;
    if a == [] {
      assert a + b == b;
    } else {
      assert (a + b)[1..] == a[1..] + b;
      RunConcat(p, Apply(p, l, a[0]), a[1..], b);
    }
  }

  lemma {:induction false} OrderedConcat(clock: real, a: seq<Event>, b: seq<Event>)
    requires Ordered(clock, a) && Ordered(LastTime(clock, a), b)
    ensures Ordered(clock, a + b) && LastTime(clock, a + b) == LastTime(LastTime(clock, a), b)
    decreases |a|
  {
    if a == [] {
      assert a + b == b;
    } else {
      assert (a + b)[1..] == a[1..] + b;
      OrderedConcat(a[0].now, a[1..], b);
    }
  }

  /** The first `i` labels hold leases that outlast `t`, those from `base` on granted at `at`, and nothing
      is counted on later days. */
  ghost predicate InBatch(p: Policy, l: Ledger, base: nat, i: nat, at: real, t: real) {
    && base <= i && l.openUntil == 0.0 && l.attempts.Keys == Names(i)
    && (forall x :: x in l.attempts ==>
          l.attempts[x].Leased? && t < l.attempts[x].expires <= at + Term(p))
    && |Active(l.attempts, at)| <= i - base && Calls(l, UtcDay(at)) <= i - base
    && forall day :: day > UtcDay(at) ==> Calls(l, day) == 0
  }

  lemma BatchGrants(p: Policy, l: Ledger, base: nat, i: nat, at: real, t: real)
    requires InBatch(p, l, base, i, at, t) && i - base < p.dailyCalls && i - base < p.concurrentCalls
    requires at >= 0.0 && p.Valid() && Label(i) !in Names(i)
    ensures Grants(p, l, Reserving(Label(i), at))
  {
    hide Names, Label, UtcDay, Active, Calls;
  }

  /** What a grant changes. */
  lemma Granted(p: Policy, l: Ledger, txn: string, now: real)
    requires Grants(p, l, Reserving(txn, now))
    ensures var n := ReserveStep(l, txn, p, now);
            && txn !in l.attempts && n.attempts == l.attempts[txn := Leased(now + Term(p))]
            && n.openUntil == l.openUntil
            && Calls(n, UtcDay(now)) == Calls(l, UtcDay(now)) + 1
            && forall day :: day != UtcDay(now) ==> Calls(n, day) == Calls(l, day)
  {
    hide UtcDay, Active;
  }

  lemma BatchOne(p: Policy, l: Ledger, base: nat, i: nat, at: real, t: real)
    requires InBatch(p, l, base, i, at, t) && i - base < p.dailyCalls && i - base < p.concurrentCalls
    requires at >= 0.0 && p.Valid() && t < at + Term(p)
    ensures InBatch(p, ReserveStep(l, Label(i), p, at), base, i + 1, at, t)
  {
    hide Names, Label, UtcDay, Active, Decide, ReserveStep, Calls;
    NamesCount(i);
    BatchGrants(p, l, base, i, at, t);
    Granted(p, l, Label(i), at);
    ActiveAfter(p, l, Reserving(Label(i), at), at);
    SubsetSize(Active(ReserveStep(l, Label(i), p, at).attempts, at), Active(l.attempts, at) + {Label(i)});
  }

  lemma {:induction false} BatchFills(p: Policy, l: Ledger, base: nat, i: nat, n: nat, at: real, t: real, clock: real)
    requires InBatch(p, l, base, i, at, t) && i <= n && n - base <= p.dailyCalls && n - base <= p.concurrentCalls
    requires at >= 0.0 && p.Valid() && t < at + Term(p) && clock <= at
    ensures InBatch(p, Run(p, l, Filling(i, n, at)), base, n, at, t)
    ensures Ordered(clock, Filling(i, n, at)) && LastTime(clock, Filling(i, n, at)) <= at
    decreases n - i
  {
    hide InBatch, ReserveStep, Label;
    if i < n {
      BatchOne(p, l, base, i, at, t);
      BatchFills(p, ReserveStep(l, Label(i), p, at), base, i + 1, n, at, t, at);
      assert Filling(i, n, at)[1..] == Filling(i + 1, n, at);
    }
  }

  /** A later day finds every earlier lease expired and a fresh counter. */
  lemma NextBatch(p: Policy, l: Ledger, base: nat, n: nat, at: real, t: real, next: real)
    requires InBatch(p, l, base, n, at, t) && at + Term(p) <= next && UtcDay(at) < UtcDay(next) && p.Valid()
    ensures InBatch(p, l, n, n, next, t)
  {
    hide UtcDay, Names, Calls;
    assert Active(l.attempts, next) == {};
  }

  /** One moment on each day from the first to the last, no two within a lease-time of each other. */
  function TimeOn(first: real, end: real, day: int): real {
    if day <= UtcDay(first) then first
    else if day >= UtcDay(end) then end
    else day as real * 86400.0 + 43200.0
  }

  ghost predicate Span(p: Policy, first: real, end: real, t: real) {
    0.0 <= first && t - Term(p) < first <= end - Term(p) && UtcDay(first) < UtcDay(end)
  }

  lemma TimeOnFacts(p: Policy, first: real, end: real, t: real, day: int)
    requires p.Valid() && Span(p, first, end, t) && UtcDay(first) <= day <= UtcDay(end)
    ensures var at := TimeOn(first, end, day);
            && UtcDay(at) == day && first <= at <= end && t < at + Term(p)
            && (day < UtcDay(end) ==> at + Term(p) <= TimeOn(first, end, day + 1))
  {
    DayOf(first, UtcDay(first));
    DayOf(end, UtcDay(end));
    DayOf(day as real * 86400.0 + 43200.0, day);
    hide UtcDay;
  }

  /** As many reservations a day as the quota allows, until there are `total`. */
  function Daily(p: Policy, day: int, last: int, n: nat, total: nat, first: real, end: real): seq<Event>
    requires n <= total
    decreases last - day + 1
  {
    if day > last then []
    else
      var m := MinInt(n + p.dailyCalls, total);
      Filling(n, m, TimeOn(first, end, day)) + Daily(p, day + 1, last, m, total, first, end)
  }

  lemma {:induction false} DailyFills(p: Policy, l: Ledger, day: int, n: nat, total: nat, first: real, end: real,
                                      t: real, clock: real)
    requires p.Valid() && Span(p, first, end, t) && UtcDay(first) <= day <= UtcDay(end) && n <= total
    requires p.dailyCalls <= p.concurrentCalls && (UtcDay(end) - day + 1) * p.dailyCalls >= total - n
    requires InBatch(p, l, n, n, TimeOn(first, end, day), t) && clock <= TimeOn(first, end, day)
    ensures var events := Daily(p, day, UtcDay(end), n, total, first, end);
            && Ordered(clock, events) && LastTime(clock, events) <= end
            && exists base :: InBatch(p, Run(p, l, events), base, total, end, t)
    decreases UtcDay(end) - day
  {
    hide InBatch, UtcDay, Run, Ordered, LastTime, Filling, TimeOn, Span;
    var last, at, m := UtcDay(end), TimeOn(first, end, day), MinInt(n + p.dailyCalls, total);
    var batch := Filling(n, m, at);
    TimeOnFacts(p, first, end, t, day);
    SpanStart(p, first, end, t);
    BatchFills(p, l, n, n, m, at, t, clock);
    var filled := Run(p, l, batch);
    OneMoreDay(last - day, p.dailyCalls);
    if day == last {
      assert Daily(p, day + 1, last, m, total, first, end) == [];
      assert batch + [] == batch;
      SpanDays(p, first, end, t);
      LastOnItsDay(first, end);
    } else {
      var next, rest := TimeOn(first, end, day + 1), Daily(p, day + 1, last, m, total, first, end);
      TimeOnFacts(p, first, end, t, day + 1);
      NextBatch(p, filled, n, m, at, t, next);
      DailyFills(p, filled, day + 1, m, total, first, end, t, LastTime(clock, batch));
      RunConcat(p, l, batch, rest);
      OrderedConcat(clock, batch, rest);
    }
  }

  lemma SpanStart(p: Policy, first: real, end: real, t: real)
    requires Span(p, first, end, t)
    ensures first >= 0.0
  {
  }

  lemma LastOnItsDay(first: real, end: real)
    requires UtcDay(first) < UtcDay(end)
    ensures TimeOn(first, end, UtcDay(end)) == end
  {
  }

  lemma NothingYet(p: Policy, at: real, t: real)
    requires p.Valid()
    ensures InBatch(p, EMPTY, 0, 0, at, t)
  {
    assert Active(EMPTY.attempts, at) == {};
  }

  lemma BatchLeases(p: Policy, l: Ledger, base: nat, n: nat, at: real, t: real)
    requires InBatch(p, l, base, n, at, t)
    ensures |Active(l.attempts, t)| == n && l.attempts.Keys == Names(n)
  {
    assert Active(l.attempts, t) == Names(n);
    NamesCount(n);
  }

  /** An instant of the span's first day from which on leases still count at `t`. */
  lemma SpanExists(p: Policy, end: real, t: real) returns (first: real)
    requires p.Valid() && t < end && end >= Term(p) && DaysSpanned(p, end, t) >= 2
    ensures Span(p, first, end, t) && UtcDay(first) == UtcDay(MaxReal(t - Term(p), 0.0))
  {
    var from := MaxReal(t - Term(p), 0.0);
    DayOf(from, UtcDay(from));
    var midnight := (UtcDay(from) + 1) as real * 86400.0;
    first := if t < Term(p) then 0.0 else MinReal(end - Term(p), (from + midnight) / 2.0);
    DayOf(first, UtcDay(from));
    hide UtcDay;
  }

  lemma NoEffect(p: Policy, l: Ledger, txn: string, now: real)
    requires txn in l.attempts
    ensures Apply(p, l, Reserving(txn, now)) == l
  {
  }

  /** Where the days spanned have quota for one lease more than the limit, reserving day by day takes it. */
  lemma QuotaTaken(p: Policy, end: real, t: real)
    requires p.Valid() && t < end && end >= Term(p) && p.dailyCalls <= p.concurrentCalls
    requires DaysSpanned(p, end, t) >= 2 && DaysSpanned(p, end, t) * p.dailyCalls > p.concurrentCalls
    ensures exists clock, events :: Ordered(clock, events) && LastTime(clock, events) == end
              && |Active(Run(p, EMPTY, events).attempts, t)| == p.concurrentCalls + 1
  {
    hide InBatch, UtcDay, Run, Ordered, LastTime, Daily, TimeOn, Span, Active, Label, Names, Apply;
    var total := p.concurrentCalls + 1;
    var first := SpanExists(p, end, t);
    var day := UtcDay(first);
    SpanDays(p, first, end, t);
    TimeOnFacts(p, first, end, t, day);
    NothingYet(p, TimeOn(first, end, day), t);
    DailyFills(p, EMPTY, day, 0, total, first, end, t, first);
    var events, last := Daily(p, day, UtcDay(end), 0, total, first, end), [Reserving(Label(0), end)];
    var full := Run(p, EMPTY, events);
    var base :| InBatch(p, full, base, total, end, t);
    BatchLeases(p, full, base, total, end, t);
    FirstName(total);
    NoEffect(p, full, Label(0), end);
    OneEvent(p, full, last[0], LastTime(first, events));
    RunConcat(p, EMPTY, events, last);
    OrderedConcat(first, events, last);
  }

  lemma SpanDays(p: Policy, first: real, end: real, t: real)
    requires Span(p, first, end, t)
    ensures UtcDay(first) < UtcDay(end)
  {
  }

  lemma FirstName(n: nat)
    requires n > 0
    ensures Label(0) in Names(n)
  {
  }

  lemma OneEvent(p: Policy, l: Ledger, e: Event, clock: real)
    requires clock <= e.now
    ensures Run(p, l, [e]) == Apply(p, l, e) && Ordered(clock, [e]) && LastTime(clock, [e]) == e.now
  {
    assert [e][1..] == [];
    assert Run(p, Apply(p, l, e), []) == Apply(p, l, e);
  }

  /** Main result: for runs that end at `end`, the lease bound holds at `t` exactly when the clock has not
      stepped back behind the end, no lease can have expired yet, or the daily quotas of all the days the
      leases can stem from fit the concurrency limit together. */
  lemma LeaseBoundNeedsClock(p: Policy, end: real, t: real)
    requires p.Valid()
    ensures LeasesBoundedAt(p, end, t)
            <==> || t >= end || end < Term(p)
                 || DaysSpanned(p, end, t) * p.dailyCalls <= p.concurrentCalls
  {
    hide UtcDay, Active, Run, Ordered, LastTime;
    if t < end && end >= Term(p) {
      DaysOrdered(MaxReal(t - Term(p), 0.0), end);
      var days := DaysSpanned(p, end, t);
      if days * p.dailyCalls > p.concurrentCalls {
        if p.concurrentCalls < p.dailyCalls {
          OneLeaseTooMany(p, end, t);
        } else {
          MoreThanOneDay(days, p.dailyCalls, p.concurrentCalls);
          QuotaTaken(p, end, t);
        }
      } else {
        forall clock, events | Ordered(clock, events) && LastTime(clock, events) == end
          ensures |Active(Run(p, EMPTY, events).attempts, t)| <= p.concurrentCalls
        {
          QuotaBounds(p, clock, events, t);
        }
      }
    } else {
      forall clock, events | Ordered(clock, events) && LastTime(clock, events) == end
        ensures |Active(Run(p, EMPTY, events).attempts, t)| <= p.concurrentCalls
      {
        BoundedUntilExpiry(p, clock, events, t);
      }
    }
  }

  lemma MoreThanOneDay(days: int, d: nat, limit: nat)
    requires days >= 1 && d <= limit < days * d
    ensures days >= 2
  {
  }
}
