/** The indexed feature computation refines the global scan, and truncation only ever understates. */
module Refinement {
  import opened Basics
  import opened Sequences
  import opened Baseline
  import opened Features
  import opened Store
  import opened Windows

  ghost predicate NotStored(s: Tables, t: Txn) {
    forall r :: r in s.rows ==> r.id != t.id
  }

  lemma PayloadIds(s: Tables, t: Txn)
    requires TableInv(s) && NotStored(s, t)
    ensures forall x :: x in Payloads(s.rows) ==> x.id != t.id
  {
    MapIndex(s.rows, PayloadOf());
    forall x | x in Payloads(s.rows)
      ensures x.id != t.id
    {
      var i :| 0 <= i < |s.rows| && Payloads(s.rows)[i] == x;
      assert RowOk(s.rows[i]);
    }
  }

  lemma NotLaterOrders()
    ensures Ordering(NotLater)
  {
  }

  /** The account window lists the scan's history, or the best-ranked part of it when it is too long. */
  lemma HistoryRefines(c: Config, s: Tables, t: Txn)
    requires c.Valid() && TableInv(s) && NotStored(s, t)
    ensures var (history, truncated) := HistoryWindow(c, s.rows, t);
            var scan := HistoricalAccountTransactions(c.engine, t, Payloads(s.rows));
            && multiset(history) <= multiset(scan)
            && (truncated <==> |scan| > c.maxHistory)
            && (!truncated ==> multiset(history) == multiset(scan))
  {
    hide Filter, Sort, Kept, Window;
    var all := Payloads(s.rows);
    var start := t.time - c.engine.WindowDays() * DAY;
    var p, q := Matches(AccountColumn, t.account, start, t.time), ObservedBefore(c.engine, t);
    WindowOnPayloads(s.rows, AccountColumn, t.account, start, t.time, c.maxHistory);
    TruncationIsExact(all, AccountColumn, t.account, start, t.time, c.maxHistory);
    PayloadIds(s, t);
    FilterWeaker(all, p, q);
    FilterWeaker(all, q, p);
    NotLaterOrders();
    SortSorts(Filter(all, q), NotLater);
    SizePerm(Filter(all, p), HistoricalAccountTransactions(c.engine, t, all));
  }

  // ---- Network windows --------------------------------------------------------------------

  lemma NetworkWindowKept(c: Config, s: Tables, t: Txn, column: Column)
    requires c.Valid() && TableInv(s)
    ensures var (found, capped) := NetworkWindow(c, s.rows, t, column);
            var matching := Filter(Payloads(s.rows), Matches(column, t.account, t.time - HOUR, t.time));
            && multiset(found) <= multiset(matching)
            && (capped <==> |matching| > c.maxNetwork)
            && (!capped ==> multiset(found) == multiset(matching))
  {
    hide Filter, Sort, Kept, Window;
    WindowOnPayloads(s.rows, column, t.account, t.time - HOUR, t.time, c.maxNetwork);
    TruncationIsExact(Payloads(s.rows), column, t.account, t.time - HOUR, t.time, c.maxNetwork);
  }

  /** How often a payment is listed as incoming, or outgoing, in a history. */
  lemma FlowMultiplicity(t: Txn, history: seq<Txn>, x: Txn)
    ensures multiset(Incoming(t, history))[x]
            == if RecentEdge(t)(x) && PaidTo(t.account)(x) then multiset(history)[x] else 0
    ensures multiset(Outgoing(t, history))[x]
            == if RecentEdge(t)(x) && PaidBy(t.account)(x) then multiset(history)[x] else 0
  {
    hide Filter;
    FilterMultiplicity(history, RecentEdge(t), x);
    FilterMultiplicity(Filter(history, RecentEdge(t)), PaidTo(t.account), x);
    FilterMultiplicity(Filter(history, RecentEdge(t)), PaidBy(t.account), x);
  }

  /** A payment of the last hour is found by exactly one of the two windows: the one for the side of it
      the account is on. What both windows find is a transfer of the account to itself, found as often by
      each as it is stored, and no payment. */
  lemma SidesOfPayment(t: Txn, all: seq<Txn>, x: Txn)
    ensures var paid := Filter(all, Matches(SourceColumn, t.account, t.time - HOUR, t.time));
            var received := Filter(all, Matches(TargetColumn, t.account, t.time - HOUR, t.time));
            && (RecentEdge(t)(x) && PaidTo(t.account)(x) ==>
                  multiset(paid)[x] == 0 && multiset(received)[x] == multiset(all)[x])
            && (RecentEdge(t)(x) && PaidBy(t.account)(x) ==>
                  multiset(paid)[x] == multiset(all)[x] && multiset(received)[x] == 0)
            && (x in paid && x in received <==>
                  x in all && IsTransfer(x) && x.account == t.account && PaidTo(t.account)(x)
                  && t.time - HOUR <= x.time < t.time)
            && (x in paid && x in received ==>
                  multiset(paid)[x] == multiset(received)[x] == multiset(all)[x] && !RecentEdge(t)(x))
  {
    hide Filter;
    FilterMultiplicity(all, Matches(SourceColumn, t.account, t.time - HOUR, t.time), x);
    FilterMultiplicity(all, Matches(TargetColumn, t.account, t.time - HOUR, t.time), x);
    FilterMember(all, Matches(SourceColumn, t.account, t.time - HOUR, t.time), x);
    FilterMember(all, Matches(TargetColumn, t.account, t.time - HOUR, t.time), x);
  }

  lemma FlowsOfParts(t: Txn, all: seq<Txn>, paid: seq<Txn>, received: seq<Txn>, x: Txn)
    requires multiset(paid) <= multiset(Filter(all, Matches(SourceColumn, t.account, t.time - HOUR, t.time)))
    requires multiset(received) <= multiset(Filter(all, Matches(TargetColumn, t.account, t.time - HOUR, t.time)))
    ensures multiset(Incoming(t, paid + received))[x] <= multiset(Incoming(t, all))[x]
    ensures multiset(Outgoing(t, paid + received))[x] <= multiset(Outgoing(t, all))[x]
    ensures multiset(received) == multiset(Filter(all, Matches(TargetColumn, t.account, t.time - HOUR, t.time)))
            ==> multiset(Incoming(t, paid + received))[x] == multiset(Incoming(t, all))[x]
    ensures multiset(paid) == multiset(Filter(all, Matches(SourceColumn, t.account, t.time - HOUR, t.time)))
            ==> multiset(Outgoing(t, paid + received))[x] == multiset(Outgoing(t, all))[x]
  {
    hide Filter, Incoming, Outgoing;
    FlowMultiplicity(t, paid + received, x);
    FlowMultiplicity(t, all, x);
    assert multiset(paid + received)[x] == multiset(paid)[x] + multiset(received)[x];
    if RecentEdge(t)(x) {
      SidesOfPayment(t, all, x);
    }
  }

  /** The transfers of the last hour on one side of the account, found by a full scan. */
  function Transfers(t: Txn, all: seq<Txn>, column: Column): seq<Txn> {
    Filter(all, Matches(column, t.account, t.time - HOUR, t.time))
  }

  /** Each direction is seen in part, and in full when the window of its own side is not cut off. */
  lemma NetworkRefines(c: Config, s: Tables, t: Txn)
    requires c.Valid() && TableInv(s) && HasNetwork(t)
    ensures var (network, capped) := NetworkWindows(c, s.rows, t);
            var all := Payloads(s.rows);
            && multiset(Incoming(t, network)) <= multiset(Incoming(t, all))
            && multiset(Outgoing(t, network)) <= multiset(Outgoing(t, all))
            && (|Transfers(t, all, TargetColumn)| <= c.maxNetwork ==>
                  multiset(Incoming(t, network)) == multiset(Incoming(t, all)))
            && (|Transfers(t, all, SourceColumn)| <= c.maxNetwork ==>
                  multiset(Outgoing(t, network)) == multiset(Outgoing(t, all)))
            && (capped <==> |Transfers(t, all, TargetColumn)| > c.maxNetwork
                            || |Transfers(t, all, SourceColumn)| > c.maxNetwork)
  {
    hide Filter, Incoming, Outgoing, NetworkWindow, Matches;
    var all := Payloads(s.rows);
    var (paid, paidCapped) := NetworkWindow(c, s.rows, t, SourceColumn);
    var (received, receivedCapped) := NetworkWindow(c, s.rows, t, TargetColumn);
    var network := paid + received;
    NetworkWindowKept(c, s, t, SourceColumn);
    NetworkWindowKept(c, s, t, TargetColumn);
    forall x
      ensures multiset(Incoming(t, network))[x] <= multiset(Incoming(t, all))[x]
           && multiset(Outgoing(t, network))[x] <= multiset(Outgoing(t, all))[x]
      ensures !receivedCapped ==> multiset(Incoming(t, network))[x] == multiset(Incoming(t, all))[x]
      ensures !paidCapped ==> multiset(Outgoing(t, network))[x] == multiset(Outgoing(t, all))[x]
    {
      FlowsOfParts(t, all, paid, received, x);
    }
  }

  lemma CustomerRefines(s: Tables, t: Txn)
    requires TableInv(s)
    ensures ComputeCustomer(t, RelevantCustomers(s, t), RelevantAccounts(s, t))
            == ComputeCustomer(t, s.customers, s.accounts)
  {
  }

  /** Main result: with neither truncation flag raised, the indexed computation of a transaction not
      yet stored gives every feature the value of the scan over the whole table. */
  lemma IndexedRefinesScan(c: Config, s: Tables, t: Txn, now: int)
    requires c.Valid() && TableInv(s) && NotStored(s, t)
    ensures var r := Compute(c, s, t, now);
            !r.historyTruncated && !r.networkTruncated
            ==> r.features == ScanFeatures(c.engine, t, Payloads(s.rows), s.customers, s.accounts)
  {
    hide HistoryWindow, NetworkWindows, HistoricalAccountTransactions, TableInv;
    hide ComputeAmount, ComputeVelocity, ComputeBehavior, ComputeCountry, ComputeTime, ComputeCustomer;
    var (history, _) := HistoryWindow(c, s.rows, t);
    var (network, _) := NetworkWindows(c, s.rows, t);
    var scan := HistoricalAccountTransactions(c.engine, t, Payloads(s.rows));
    HistoryRefines(c, s, t);
    if !Compute(c, s, t, now).historyTruncated && !Compute(c, s, t, now).networkTruncated {
      VelocityPerm(c.engine, t, history, scan);
      BehaviorPerm(c.engine, t, history, scan);
      CustomerRefines(s, t);
      if HasNetwork(t) {
        NetworkRefines(c, s, t);
        NetworkPerm(t, network, Payloads(s.rows));
      }
    }
  }

  // ---- Truncation never overstates --------------------------------------------------------

  lemma QuotientAtMost(a: nat, b: nat, d: real)
    requires a <= b && d > 0.0
    ensures a as real / d <= b as real / d
  {
    QuotientOrder(a as real, b as real, d);
  }

  lemma WindowSub(t: Txn, a: seq<Txn>, b: seq<Txn>, start: int)
    requires multiset(a) <= multiset(b)
    ensures var x, y := Filter(a, Since(start)), Filter(b, Since(start));
            && |x| <= |y| && |Filter(x, InCurrency(t.currency))| <= |Filter(y, InCurrency(t.currency))|
            && Sum(Filter(x, InCurrency(t.currency)), AmountOf()) <= Sum(Filter(y, InCurrency(t.currency)), AmountOf())
  {
    hide Filter, Sum;
    var x, y := Filter(a, Since(start)), Filter(b, Since(start));
    FilterSub(a, b, Since(start));
    SizeSub(x, y);
    FilterSub(x, y, InCurrency(t.currency));
    SizeSub(Filter(x, InCurrency(t.currency)), Filter(y, InCurrency(t.currency)));
    SumSub(Filter(x, InCurrency(t.currency)), Filter(y, InCurrency(t.currency)), AmountOf());
  }

  predicate VelocityAtMost(a: VelocityFeatures, b: VelocityFeatures) {
    && a.longCount <= b.longCount && a.shortCount <= b.shortCount
    && a.longTotal <= b.longTotal && a.shortTotal <= b.shortTotal
    && a.score <= b.score && a.structuringScore <= b.structuringScore && a.nearThresholdCount <= b.nearThresholdCount
    && a.sameCurrencyCount <= b.sameCurrencyCount
  }

  lemma VelocitySub(e: Engine, t: Txn, a: seq<Txn>, b: seq<Txn>)
    requires e.Valid() && multiset(a) <= multiset(b)
    ensures VelocityAtMost(ComputeVelocity(e, t, a), ComputeVelocity(e, t, b))
  {
    hide Filter, Sum, NearThresholdCount;
    WindowSub(t, a, b, t.time - e.longDays * DAY);
    WindowSub(t, a, b, t.time - e.shortDays * DAY);
    NearThresholdSub(e, t, a, b);
    QuotientAtMost(|Filter(a, Since(t.time - e.longDays * DAY))|, |Filter(b, Since(t.time - e.longDays * DAY))|,
                   e.longDays as real);
  }

  predicate BehaviorAtMost(a: BehaviorFeatures, b: BehaviorFeatures) {
    a.ready <= b.ready && a.sampleCount <= b.sampleCount
  }

  lemma BehaviorSub(e: Engine, t: Txn, a: seq<Txn>, b: seq<Txn>)
    requires multiset(a) <= multiset(b)
    ensures BehaviorAtMost(ComputeBehavior(e, t, a), ComputeBehavior(e, t, b))
  {
    hide Filter, UpwardZ;
    FilterSub(a, b, Comparable(t, t.time - e.longDays * DAY));
    SizeSub(Sample(e, t, a), Sample(e, t, b));
    MapIndex(Sample(e, t, a), LogAmount(e));
    MapIndex(Sample(e, t, b), LogAmount(e));
  }

  predicate NetworkAtMost(a: NetworkFeatures, b: NetworkFeatures) {
    && a.available == b.available && a.fanIn <= b.fanIn && a.fanOut <= b.fanOut && a.fanOutScore <= b.fanOutScore
    && a.reciprocal <= b.reciprocal
  }

  lemma ReciprocatesSub(t: Txn, target: string, a: seq<Txn>, b: seq<Txn>)
    requires multiset(a) <= multiset(b)
    ensures AnyReciprocates(t, target, a) ==> AnyReciprocates(t, target, b)
  {
    hide Reciprocates;
    if AnyReciprocates(t, target, a) {
      var x :| x in a && Reciprocates(t, target, x);
      MemberPerm(a, b, x);
    }
  }

  lemma NetworkSub(t: Txn, a: seq<Txn>, b: seq<Txn>)
    requires multiset(Incoming(t, a)) <= multiset(Incoming(t, b))
    requires multiset(Outgoing(t, a)) <= multiset(Outgoing(t, b))
    ensures NetworkAtMost(ComputeNetwork(t, a), ComputeNetwork(t, b))
  {
    hide Incoming, Outgoing, PassesThrough, AnyReciprocates, Senders, Recipients;
    SendersSub(Incoming(t, a), Incoming(t, b));
    SendersSub(Outgoing(t, a), Outgoing(t, b));
    SubsetSize(Senders(Incoming(t, a)), Senders(Incoming(t, b)));
    if HasNetwork(t) {
      var target := t.counterparty.value;
      ReciprocatesSub(t, target, Incoming(t, a), Incoming(t, b));
      SubsetSize({target} + Recipients(Outgoing(t, a)), {target} + Recipients(Outgoing(t, b)));
    }
  }

  lemma NetworkFlagIsExact(c: Config, s: Tables, t: Txn)
    requires c.Valid() && TableInv(s)
    ensures NetworkWindows(c, s.rows, t).1 <==>
              t.direction == Some(Outbound) && t.counterparty.Some?
              && (|Transfers(t, Payloads(s.rows), SourceColumn)| > c.maxNetwork
                  || |Transfers(t, Payloads(s.rows), TargetColumn)| > c.maxNetwork)
  {
    hide NetworkWindow, Filter, Matches;
    NetworkWindowKept(c, s, t, SourceColumn);
    NetworkWindowKept(c, s, t, TargetColumn);
  }

  /** Main result: whatever was cut off, every windowed count and currency total, the velocity and
      structuring scores, the sample count and readiness of the baseline, fan-in, fan-out and reciprocal
      flow never exceed their values over the whole table, what needs no window equals them, and each flag
      is raised exactly when a window it stands for holds more than its limit. */
  lemma TruncationNeverOverstates(c: Config, s: Tables, t: Txn, now: int)
    requires c.Valid() && TableInv(s) && NotStored(s, t)
    ensures var r := Compute(c, s, t, now);
            var scan := ScanFeatures(c.engine, t, Payloads(s.rows), s.customers, s.accounts);
            && VelocityAtMost(r.features.velocity, scan.velocity)
            && BehaviorAtMost(r.features.behavior, scan.behavior)
            && NetworkAtMost(r.features.network, scan.network)
            && r.features.amount == scan.amount && r.features.country == scan.country
            && r.features.customer == scan.customer && r.features.time == scan.time
            && (r.historyTruncated <==>
                  |HistoricalAccountTransactions(c.engine, t, Payloads(s.rows))| > c.maxHistory)
            && (r.networkTruncated <==>
                  t.direction == Some(Outbound) && t.counterparty.Some?
                  && (|Transfers(t, Payloads(s.rows), SourceColumn)| > c.maxNetwork
                      || |Transfers(t, Payloads(s.rows), TargetColumn)| > c.maxNetwork))
  {
    NetworkFlagIsExact(c, s, t);
    hide HistoryWindow, NetworkWindows, HistoricalAccountTransactions, TableInv;
    hide ComputeAmount, ComputeVelocity, ComputeBehavior, ComputeCountry, ComputeTime, ComputeCustomer;
    var (history, _) := HistoryWindow(c, s.rows, t);
    var (network, _) := NetworkWindows(c, s.rows, t);
    var scan := HistoricalAccountTransactions(c.engine, t, Payloads(s.rows));
    HistoryRefines(c, s, t);
    VelocitySub(c.engine, t, history, scan);
    BehaviorSub(c.engine, t, history, scan);
    CustomerRefines(s, t);
    if HasNetwork(t) {
      NetworkRefines(c, s, t);
      NetworkSub(t, network, Payloads(s.rows));
    }
  }
}
