/** What truncation leaves exact: every feature whose own window still fits the limit. */
module Truncation {
  import opened Basics
  import opened Sequences
  import opened Baseline
  import opened Features
  import opened Store
  import opened Windows
  import opened Refinement

  // ---- Recent parts of the account history ------------------------------------------------

  /** The account's stored transactions since `start` and before `t`, as the full scan sees them. */
  function Observed(c: Config, s: Tables, t: Txn, start: int): seq<Txn> {
    Filter(HistoricalAccountTransactions(c.engine, t, Payloads(s.rows)), Since(start))
  }

  /** The same part of what the index window returned. */
  function Seen(c: Config, s: Tables, t: Txn, start: int): seq<Txn> {
    Filter(HistoryWindow(c, s.rows, t).0, Since(start))
  }

  lemma ObservedMatches(c: Config, s: Tables, t: Txn, start: int)
    requires c.Valid() && TableInv(s) && NotStored(s, t) && start >= t.time - c.engine.WindowDays() * DAY
    ensures multiset(Observed(c, s, t, start))
            == multiset(Filter(Payloads(s.rows), Matches(AccountColumn, t.account, start, t.time)))
  {
    hide Filter, Sort;
    var all, e := Payloads(s.rows), c.engine;
    var part := Filter(all, Matches(AccountColumn, t.account, start, t.time));
    PayloadIds(s, t);
    NotLaterOrders();
    SortSorts(Filter(all, ObservedBefore(e, t)), NotLater);
    FilterPerm(HistoricalAccountTransactions(e, t, all), Filter(all, ObservedBefore(e, t)), Since(start));
    forall x
      ensures multiset(Filter(Filter(all, ObservedBefore(e, t)), Since(start)))[x] == multiset(part)[x]
    {
      FilterMultiplicity(Filter(all, ObservedBefore(e, t)), Since(start), x);
      FilterMultiplicity(all, ObservedBefore(e, t), x);
      FilterMultiplicity(all, Matches(AccountColumn, t.account, start, t.time), x);
      assert x in all <==> multiset(all)[x] > 0;
    }
  }

  /** Of every recent part of the history the index returns all the limit has room for. */
  lemma RecentHistory(c: Config, s: Tables, t: Txn, start: int)
    requires c.Valid() && TableInv(s) && NotStored(s, t) && start >= t.time - c.engine.WindowDays() * DAY
    ensures |Seen(c, s, t, start)| == MinInt(c.maxHistory, |Observed(c, s, t, start)|)
    ensures multiset(Seen(c, s, t, start)) <= multiset(Observed(c, s, t, start))
    ensures |Observed(c, s, t, start)| <= c.maxHistory ==>
              multiset(Seen(c, s, t, start)) == multiset(Observed(c, s, t, start))
  {
    hide Filter, Kept, Window, Observed;
    var all, from := Payloads(s.rows), t.time - c.engine.WindowDays() * DAY;
    WindowOnPayloads(s.rows, AccountColumn, t.account, from, t.time, c.maxHistory);
    RecentSurvives(all, AccountColumn, t.account, from, t.time, c.maxHistory, start);
    ObservedMatches(c, s, t, start);
    SizePerm(Observed(c, s, t, start), Filter(all, Matches(AccountColumn, t.account, start, t.time)));
  }

  lemma HistoryFits(c: Config, s: Tables, t: Txn)
    requires c.Valid() && TableInv(s)
    ensures |HistoryWindow(c, s.rows, t).0| <= c.maxHistory
  {
    hide Kept, Window, Filter;
    var from := t.time - c.engine.WindowDays() * DAY;
    WindowOnPayloads(s.rows, AccountColumn, t.account, from, t.time, c.maxHistory);
    TruncationIsExact(Payloads(s.rows), AccountColumn, t.account, from, t.time, c.maxHistory);
  }

  // ---- Features of one recent part --------------------------------------------------------

  lemma SameCurrencyPerm(t: Txn, x: seq<Txn>, y: seq<Txn>)
    requires multiset(x) == multiset(y)
    ensures |x| == |y| && |Filter(x, InCurrency(t.currency))| == |Filter(y, InCurrency(t.currency))|
    ensures Sum(Filter(x, InCurrency(t.currency)), AmountOf()) == Sum(Filter(y, InCurrency(t.currency)), AmountOf())
  {
    hide Filter, Sum;
    SizePerm(x, y);
    FilterPerm(x, y, InCurrency(t.currency));
    SizePerm(Filter(x, InCurrency(t.currency)), Filter(y, InCurrency(t.currency)));
    SumPerm(Filter(x, InCurrency(t.currency)), Filter(y, InCurrency(t.currency)), AmountOf());
  }

  predicate SameShort(a: VelocityFeatures, b: VelocityFeatures) {
    a.shortCount == b.shortCount && a.shortTotal == b.shortTotal && a.shortAverage == b.shortAverage
  }

  lemma ShortPart(e: Engine, t: Txn, a: seq<Txn>, b: seq<Txn>)
    requires e.Valid()
    requires multiset(Filter(a, Since(t.time - e.shortDays * DAY)))
             == multiset(Filter(b, Since(t.time - e.shortDays * DAY)))
    ensures SameShort(ComputeVelocity(e, t, a), ComputeVelocity(e, t, b))
  {
    hide Filter, Sum, NearThresholdCount;
    SameCurrencyPerm(t, Filter(a, Since(t.time - e.shortDays * DAY)), Filter(b, Since(t.time - e.shortDays * DAY)));
  }

  predicate SameLong(a: VelocityFeatures, b: VelocityFeatures) {
    && a.longCount == b.longCount && a.longTotal == b.longTotal && a.longAverage == b.longAverage
    && a.score == b.score && a.deviation == b.deviation && a.sameCurrencyCount == b.sameCurrencyCount
  }

  lemma LongPart(e: Engine, t: Txn, a: seq<Txn>, b: seq<Txn>)
    requires e.Valid()
    requires multiset(Filter(a, Since(t.time - e.longDays * DAY)))
             == multiset(Filter(b, Since(t.time - e.longDays * DAY)))
    ensures SameLong(ComputeVelocity(e, t, a), ComputeVelocity(e, t, b))
    ensures ComputeBehavior(e, t, a) == ComputeBehavior(e, t, b)
  {
    hide Filter, Sum, NearThresholdCount, ComputeBehavior;
    SameCurrencyPerm(t, Filter(a, Since(t.time - e.longDays * DAY)), Filter(b, Since(t.time - e.longDays * DAY)));
    BehaviorOfPart(e, t, a);
    BehaviorOfPart(e, t, b);
    BehaviorPerm(e, t, Filter(a, Since(t.time - e.longDays * DAY)), Filter(b, Since(t.time - e.longDays * DAY)));
  }

  /** The baseline reads nothing older than the long window. */
  lemma BehaviorOfPart(e: Engine, t: Txn, a: seq<Txn>)
    ensures ComputeBehavior(e, t, a) == ComputeBehavior(e, t, Filter(a, Since(t.time - e.longDays * DAY)))
  {
    hide Filter, UpwardZ, Map;
    var p, since := Comparable(t, t.time - e.longDays * DAY), Since(t.time - e.longDays * DAY);
    forall x
      ensures multiset(Filter(a, p))[x] == multiset(Filter(Filter(a, since), p))[x]
    {
      FilterMultiplicity(a, p, x);
      FilterMultiplicity(a, since, x);
      FilterMultiplicity(Filter(a, since), p, x);
    }
    var x, y := Filter(a, p), Filter(Filter(a, since), p);
    MapPerm(x, y, LogAmount(e));
    SizePerm(Map(x, LogAmount(e)), Map(y, LogAmount(e)));
    UpwardZPerm(e.log1p(Units(t.amount)), Map(x, LogAmount(e)), Map(y, LogAmount(e)));
  }

  lemma WeekPart(e: Engine, t: Txn, a: seq<Txn>, b: seq<Txn>)
    requires multiset(Filter(a, Since(t.time - 7 * DAY))) == multiset(Filter(b, Since(t.time - 7 * DAY)))
    ensures NearThresholdCount(e, t, a) == NearThresholdCount(e, t, b)
  {
    hide Filter;
    var x, y := [t] + Filter(a, Since(t.time - 7 * DAY)), [t] + Filter(b, Since(t.time - 7 * DAY));
    assert multiset(x) == multiset(y);
    FilterPerm(x, y, NearThreshold(e));
    SizePerm(Filter(x, NearThreshold(e)), Filter(y, NearThreshold(e)));
  }

  // ---- Which features stay exact ----------------------------------------------------------

  /** How much faster the short window is than the long one, told by the two counts. */
  function Acceleration(e: Engine, short: nat, long: nat): real
    requires e.Valid()
  {
    MinReal(MaxReal(short as real / e.shortDays as real - long as real / e.longDays as real, 0.0) / 2.0, 1.0)
  }

  lemma CountsGiveRates(e: Engine, t: Txn, history: seq<Txn>)
    requires e.Valid()
    ensures var v := ComputeVelocity(e, t, history);
            && v.shortCount == |Filter(history, Since(t.time - e.shortDays * DAY))|
            && v.longCount == |Filter(history, Since(t.time - e.longDays * DAY))|
            && v.acceleration == Acceleration(e, v.shortCount, v.longCount)
            && v.structuringScore == MinReal(v.nearThresholdCount as real / 4.0, 1.0)
            && v.nearThresholdCount == NearThresholdCount(e, t, history)
  {
    hide Filter, Sum, NearThresholdCount;
  }

  lemma SlowerBackground(e: Engine, short: nat, long: nat, less: nat)
    requires e.Valid() && less <= long
    ensures Acceleration(e, short, less) >= Acceleration(e, short, long)
  {
    QuotientOrder(less as real, long as real, e.longDays as real);
  }

  /** `a` is what the limit leaves of `b` since `start`. */
  ghost predicate CutTo(limit: nat, a: seq<Txn>, b: seq<Txn>, start: int) {
    && |Filter(a, Since(start))| == MinInt(limit, |Filter(b, Since(start))|)
    && (|Filter(b, Since(start))| <= limit ==> multiset(Filter(a, Since(start))) == multiset(Filter(b, Since(start))))
  }

  ghost predicate ExactWhereItFits(e: Engine, limit: nat, r: VelocityFeatures, scan: VelocityFeatures)
    requires e.Valid()
  {
    && r.shortCount == MinInt(limit, scan.shortCount) && r.longCount == MinInt(limit, scan.longCount)
    && r.acceleration == Acceleration(e, r.shortCount, r.longCount)
    && (scan.shortCount <= limit ==> SameShort(r, scan) && r.acceleration >= scan.acceleration)
    && (scan.longCount <= limit ==> SameLong(r, scan) && SameShort(r, scan) && r.acceleration == scan.acceleration)
  }

  lemma NestedCounts(e: Engine, t: Txn, s: seq<Txn>)
    requires e.Valid()
    ensures |Filter(s, Since(t.time - e.shortDays * DAY))| <= |Filter(s, Since(t.time - e.longDays * DAY))|
  {
    hide Filter;
    FilterWeaker(s, Since(t.time - e.shortDays * DAY), Since(t.time - e.longDays * DAY));
    SizeSub(Filter(s, Since(t.time - e.shortDays * DAY)), Filter(s, Since(t.time - e.longDays * DAY)));
  }

  lemma VelocityWhereItFits(e: Engine, t: Txn, limit: nat, a: seq<Txn>, b: seq<Txn>)
    requires e.Valid()
    requires CutTo(limit, a, b, t.time - e.shortDays * DAY) && CutTo(limit, a, b, t.time - e.longDays * DAY)
    ensures ExactWhereItFits(e, limit, ComputeVelocity(e, t, a), ComputeVelocity(e, t, b))
  {
    hide Filter, ComputeVelocity, ComputeBehavior, Acceleration, SameShort, SameLong;
    CountsGiveRates(e, t, a);
    CountsGiveRates(e, t, b);
    NestedCounts(e, t, b);
    var r, scan := ComputeVelocity(e, t, a), ComputeVelocity(e, t, b);
    if scan.shortCount <= limit {
      ShortPart(e, t, a, b);
      SlowerBackground(e, scan.shortCount, scan.longCount, r.longCount);
    }
    if scan.longCount <= limit {
      LongPart(e, t, a, b);
    }
  }

  /** Main result: both window counts are the scan's, cut at the limit, and the acceleration is told by
      them. A feature is exact whenever its own window fits the limit: the short count, total and
      average, the long ones with velocity, deviation and the whole baseline, and the structuring score.
      Where only the long window is cut off, acceleration is never understated. */
  lemma RecentWindowsAreExact(c: Config, s: Tables, t: Txn, now: int)
    requires c.Valid() && TableInv(s) && NotStored(s, t)
    ensures var r := Compute(c, s, t, now).features;
            var scan := ScanFeatures(c.engine, t, Payloads(s.rows), s.customers, s.accounts);
            && ExactWhereItFits(c.engine, c.maxHistory, r.velocity, scan.velocity)
            && (scan.velocity.longCount <= c.maxHistory ==> r.behavior == scan.behavior)
            && (|Observed(c, s, t, t.time - 7 * DAY)| <= c.maxHistory ==>
                  && r.velocity.nearThresholdCount == scan.velocity.nearThresholdCount
                  && r.velocity.structuringScore == scan.velocity.structuringScore)
  {
    hide ComputeVelocity, ComputeBehavior, ComputeNetwork, HistoricalAccountTransactions, Filter;
    hide HistoryWindow, NetworkWindows, TableInv, NotStored, ExactWhereItFits;
    var e := c.engine;
    var a, b := HistoryWindow(c, s.rows, t).0, HistoricalAccountTransactions(e, t, Payloads(s.rows));
    RecentHistory(c, s, t, t.time - e.shortDays * DAY);
    RecentHistory(c, s, t, t.time - e.longDays * DAY);
    RecentHistory(c, s, t, t.time - 7 * DAY);
    VelocityWhereItFits(e, t, c.maxHistory, a, b);
    CountsGiveRates(e, t, a);
    CountsGiveRates(e, t, b);
    if |Filter(b, Since(t.time - e.longDays * DAY))| <= c.maxHistory {
      LongPart(e, t, a, b);
    }
    if |Observed(c, s, t, t.time - 7 * DAY)| <= c.maxHistory {
      WeekPart(e, t, a, b);
    }
  }

  // ---- Directions of the network ----------------------------------------------------------

  predicate SameIncoming(a: NetworkFeatures, b: NetworkFeatures) {
    a.fanIn == b.fanIn && a.passThrough == b.passThrough && a.reciprocal == b.reciprocal
  }

  predicate SameOutgoing(a: NetworkFeatures, b: NetworkFeatures) {
    a.fanOut == b.fanOut && a.fanOutScore == b.fanOutScore
  }

  lemma IncomingPart(t: Txn, a: seq<Txn>, b: seq<Txn>)
    requires multiset(Incoming(t, a)) == multiset(Incoming(t, b))
    ensures SameIncoming(ComputeNetwork(t, a), ComputeNetwork(t, b))
  {
    hide Incoming, Outgoing, Filter, Sum, Senders, Recipients, AnyReciprocates;
    var ia, ib, p := Incoming(t, a), Incoming(t, b), InCurrency(t.currency);
    SendersPerm(ia, ib);
    FilterPerm(ia, ib, p);
    SendersPerm(Filter(ia, p), Filter(ib, p));
    SumPerm(Filter(ia, p), Filter(ib, p), AmountOf());
    if HasNetwork(t) {
      AnyReciprocatesPerm(t, t.counterparty.value, ia, ib);
    }
  }

  lemma OutgoingPart(t: Txn, a: seq<Txn>, b: seq<Txn>)
    requires multiset(Outgoing(t, a)) == multiset(Outgoing(t, b))
    ensures SameOutgoing(ComputeNetwork(t, a), ComputeNetwork(t, b))
  {
    hide Incoming, Outgoing, PassesThrough, AnyReciprocates, Senders, Recipients;
    SendersPerm(Outgoing(t, a), Outgoing(t, b));
  }

  /** Main result: each direction stands on its own window. While the transfers to the account fit the
      limit, fan-in, pass-through and reciprocal flow are exact; while those from it fit, fan-out is. */
  lemma DirectionsAreExact(c: Config, s: Tables, t: Txn, now: int)
    requires c.Valid() && TableInv(s)
    ensures var r := Compute(c, s, t, now).features.network;
            var scan := ComputeNetwork(t, Payloads(s.rows));
            && (|Transfers(t, Payloads(s.rows), TargetColumn)| <= c.maxNetwork ==> SameIncoming(r, scan))
            && (|Transfers(t, Payloads(s.rows), SourceColumn)| <= c.maxNetwork ==> SameOutgoing(r, scan))
  {
    hide Transfers, NetworkWindows, HistoryWindow, TableInv, Incoming, Outgoing;
    hide ComputeVelocity, ComputeBehavior, SameIncoming, SameOutgoing;
    var network, all := NetworkWindows(c, s.rows, t).0, Payloads(s.rows);
    if HasNetwork(t) {
      hide ComputeNetwork;
      NetworkRefines(c, s, t);
      if |Transfers(t, all, TargetColumn)| <= c.maxNetwork {
        IncomingPart(t, network, all);
      }
      if |Transfers(t, all, SourceColumn)| <= c.maxNetwork {
        OutgoingPart(t, network, all);
      }
    } else {
      NoNetwork(t, network, all);
    }
  }

  lemma NoNetwork(t: Txn, a: seq<Txn>, b: seq<Txn>)
    requires !HasNetwork(t)
    ensures SameIncoming(ComputeNetwork(t, a), ComputeNetwork(t, b))
    ensures SameOutgoing(ComputeNetwork(t, a), ComputeNetwork(t, b))
  {
  }
}
