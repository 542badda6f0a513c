/** What single features say about the evidence, free of the arithmetic that computes them. */
module Meaning {
  import opened Basics
  import opened Sequences
  import opened Baseline
  import opened Features

  // ---- Clock and calendar -----------------------------------------------------------------

  /** Day 0 is Thursday, 1 January 1970: Saturdays and Sundays are the days 2 and 3 of each week from it. */
  lemma TimeOfDay(t: Txn, day: int, hour: nat, rest: nat)
    requires t.time == day * DAY + hour * HOUR + rest && hour < 24 && rest < HOUR
    ensures ComputeTime(t).hour == hour
    ensures ComputeTime(t).offHours == Flag(hour < 8 || hour >= 18)
    ensures ComputeTime(t).weekend == Flag(day % 7 == 2 || day % 7 == 3)
  {
    assert t.time / HOUR == 24 * day + hour;
    assert (24 * day + hour) % 24 == hour;
    assert t.time / DAY == day;
  }

  /** An account is new while it, or its customer, is unknown or it was opened less than 90 days before. */
  lemma NewAccount(t: Txn, customers: map<string, Customer>, accounts: map<string, Account>)
    ensures ComputeCustomer(t, customers, accounts).newAccount == 1.0
            <==> t.account !in accounts || accounts[t.account].customerId !in customers
                 || t.time - accounts[t.account].openedAt < 90 * DAY
  {
    if t.account in accounts {
      var age := t.time - accounts[t.account].openedAt;
      assert age / DAY < 90 <==> age < 90 * DAY;
    }
  }

  // ---- Windows of the account's own history -----------------------------------------------

  lemma WindowsNested(e: Engine, t: Txn, history: seq<Txn>)
    requires e.Valid()
    ensures var long := Filter(history, Since(t.time - e.longDays * DAY));
            var short := Filter(history, Since(t.time - e.shortDays * DAY));
            && |short| <= |long| && |Filter(long, InCurrency(t.currency))| <= |long|
            && Units(Sum(Filter(short, InCurrency(t.currency)), AmountOf()))
               <= Units(Sum(Filter(long, InCurrency(t.currency)), AmountOf()))
  {
    hide Filter, Sum;
    var long := Filter(history, Since(t.time - e.longDays * DAY));
    var short := Filter(history, Since(t.time - e.shortDays * DAY));
    FilterWeaker(history, Since(t.time - e.shortDays * DAY), Since(t.time - e.longDays * DAY));
    SizeSub(short, long);
    FilterSub(short, long, InCurrency(t.currency));
    SumSub(Filter(short, InCurrency(t.currency)), Filter(long, InCurrency(t.currency)), AmountOf());
    FilterLength(long, InCurrency(t.currency));
  }

  /** The short window is part of the long one, and totals are averages times counts. */
  lemma VelocityIsConsistent(e: Engine, t: Txn, history: seq<Txn>)
    requires e.Valid()
    ensures var v := ComputeVelocity(e, t, history);
            && v.shortCount <= v.longCount && v.shortTotal <= v.longTotal
            && v.sameCurrencyCount <= v.longCount
            && v.longAverage * v.sameCurrencyCount as real == v.longTotal
  {
    hide Filter, Sum, Units, Average, Features.NearThresholdCount;
    WindowsNested(e, t, history);
    AverageTimesCount(Filter(Filter(history, Since(t.time - e.longDays * DAY)), InCurrency(t.currency)));
  }

  lemma AverageTimesCount(s: seq<Txn>)
    ensures Average(Units(Sum(s, AmountOf())), |s|) * |s| as real == Units(Sum(s, AmountOf()))
  {
    if |s| > 0 {
      Quotient(Units(Sum(s, AmountOf())), |s| as real);
    }
  }

  // ---- Motifs of the last hour ------------------------------------------------------------

  /** A ratio of amounts is between 80% and 120%. */
  lemma RatioInBand(a: int, b: int)
    requires a > 0 && b > 0
    ensures 0.8 <= Units(a) / Units(b) <= 1.2 <==> 8 * b <= 10 * a <= 12 * b
  {
    Quotient(Units(a), Units(b));
    Band(Units(a) / Units(b), Units(a), Units(b));
    assert 0.8 * Units(b) <= Units(a) <==> 8 * b <= 10 * a;
    assert Units(a) <= 1.2 * Units(b) <==> 10 * a <= 12 * b;
  }

  lemma Band(q: real, a: real, b: real)
    requires b > 0.0 && q * b == a
    ensures 0.8 <= q <= 1.2 <==> 0.8 * b <= a <= 1.2 * b
  {
    ProductOrder(0.8, q, b);
    ProductOrder(q, 1.2, b);
  }

  /** `x` is a transfer of the last hour from the account that `t` pays to the account that pays. */
  predicate Reverses(t: Txn, x: Txn) {
    HasNetwork(t) && RecentEdge(t)(x) && x.account == t.counterparty.value && x.counterparty == Some(t.account)
  }

  /** The reciprocal-flow feature is raised exactly by a comparable transfer in the opposite direction. */
  lemma ReciprocalFlow(t: Txn, history: seq<Txn>)
    ensures ComputeNetwork(t, history).reciprocal == 1.0
            <==> exists x :: x in history && Reverses(t, x) && x.currency == t.currency
                             && 8 * x.amount <= 10 * t.amount <= 12 * x.amount
  {
    hide Filter;
    forall x
      ensures x in Incoming(t, history) <==> x in history && RecentEdge(t)(x) && PaidTo(t.account)(x)
      ensures 0.8 <= Units(t.amount) / Units(x.amount) <= 1.2 <==> 8 * x.amount <= 10 * t.amount <= 12 * x.amount
    {
      FilterMember(history, RecentEdge(t), x);
      FilterMember(Filter(history, RecentEdge(t)), PaidTo(t.account), x);
      RatioInBand(t.amount, x.amount);
    }
  }

  /** The pass-through feature is raised exactly when the payment moves on what three or more senders
      brought in the same currency within the hour, to within a fifth. */
  lemma PassThrough(t: Txn, history: seq<Txn>)
    ensures ComputeNetwork(t, history).passThrough == 1.0
            <==> var brought := Filter(Incoming(t, history), InCurrency(t.currency));
                 && HasNetwork(t) && |Senders(brought)| >= 3
                 && 8 * Sum(brought, AmountOf()) <= 10 * t.amount <= 12 * Sum(brought, AmountOf())
  {
    hide Filter, Incoming, Senders;
    var brought := Filter(Incoming(t, history), InCurrency(t.currency));
    SumNonNegative(brought, AmountOf());
    if Sum(brought, AmountOf()) > 0 {
      RatioInBand(t.amount, Sum(brought, AmountOf()));
    }
  }

  // ---- Amounts and thresholds -------------------------------------------------------------

  /** The amount in the reporting currency, in ten-thousandths, if it is known. */
  function Converted(e: Engine, t: Txn): Option<int> {
    if t.currency == e.baseCurrency then Some(t.amount)
    else if t.baseCurrency == Some(e.baseCurrency) then t.baseAmount
    else None
  }

  predicate JustBelow(threshold: real, amount: int) {
    8.0 * threshold <= 10.0 * Units(amount) && Units(amount) < threshold
  }

  /** A converted amount is flagged as near the first threshold from four fifths of it on, and as exceeding
      it from the threshold on, never both; a round amount is one in whole thousands. */
  lemma AmountFlags(e: Engine, t: Txn)
    requires e.Valid()
    ensures var a, o := ComputeAmount(e, t), Converted(e, t);
            && (a.conversionAvailable == 1.0 <==> o.Some?)
            && (a.nearThreshold == 1.0 <==> o.Some? && JustBelow(e.thresholds[0], o.value))
            && (a.thresholdExceeded == 1.0 <==> o.Some? && Units(o.value) >= e.thresholds[0])
            && !(a.nearThreshold == 1.0 && a.thresholdExceeded == 1.0)
            && (a.rounded == 1.0 <==> exists k: int :: t.amount == Thousands(k))
            && a.amount * 10_000.0 == t.amount as real && a.amountLog == e.log1p(a.amount)
  {
    if t.amount % 10_000_000 == 0 {
      assert t.amount == Thousands(t.amount / 10_000_000);
    }
  }

  function Thousands(k: int): int {
    k * 10_000_000
  }

  /** Just below one of the reporting thresholds. */
  predicate NearAny(e: Engine, t: Txn) {
    Converted(e, t).Some? && exists i :: 0 <= i < |e.thresholds| && JustBelow(e.thresholds[i], Converted(e, t).value)
  }

  lemma NearMeans(e: Engine, t: Txn)
    ensures NearThreshold(e)(t) <==> NearAny(e, t)
  {
    if NearThreshold(e)(t) {
      var i :| 0 <= i < |e.thresholds| && NearBelow(e.thresholds[i], BaseAmount(e, t).value);
      assert JustBelow(e.thresholds[i], Converted(e, t).value);
    }
    if NearAny(e, t) {
      var i :| 0 <= i < |e.thresholds| && JustBelow(e.thresholds[i], Converted(e, t).value);
      assert NearBelow(e.thresholds[i], BaseAmount(e, t).value);
    }
  }

  /** The scan's history: what the account did before, within the long window or seven days, whichever is longer. */
  lemma HistoryHolds(e: Engine, t: Txn, all: seq<Txn>, x: Txn)
    ensures multiset(HistoricalAccountTransactions(e, t, all))[x]
            == if x.account == t.account && x.id != t.id && x.time < t.time
                  && (x.time >= t.time - e.longDays * DAY || x.time >= t.time - 7 * DAY)
               then multiset(all)[x] else 0
    ensures SortedBy(HistoricalAccountTransactions(e, t, all), NotLater)
  {
    hide Filter, Sort;
    FilterMultiplicity(all, ObservedBefore(e, t), x);
    SortSorts(Filter(all, ObservedBefore(e, t)), NotLater);
  }

  // ---- One more observed transaction ------------------------------------------------------

  lemma FilterOne<T>(s: seq<T>, x: T, p: T -> bool)
    ensures Filter(s + [x], p) == Filter(s, p) + if p(x) then [x] else []
  {
    FilterConcat(s, [x], p);
    assert [x][1..] == [];
    assert Filter([x], p) == (if p(x) then [x] else []) + Filter([], p);
  }

  lemma SumOne(s: seq<Txn>, x: Txn)
    ensures Sum(s + [x], AmountOf()) == Sum(s, AmountOf()) + x.amount
  {
    SumConcat(s, [x], AmountOf());
    SumPrepend(x, [], AmountOf());
    assert [x] + [] == [x];
  }

  lemma WindowOne(t: Txn, history: seq<Txn>, x: Txn, start: int)
    ensures var a, b := Filter(history, Since(start)), Filter(history + [x], Since(start));
            var i, j := Filter(a, InCurrency(t.currency)), Filter(b, InCurrency(t.currency));
            && |b| == |a| + (if x.time >= start then 1 else 0)
            && |j| == |i| + (if x.time >= start && x.currency == t.currency then 1 else 0)
            && Sum(j, AmountOf())
               == Sum(i, AmountOf()) + (if x.time >= start && x.currency == t.currency then x.amount else 0)
  {
    hide Filter, Sum;
    var a, p := Filter(history, Since(start)), InCurrency(t.currency);
    FilterOne(history, x, Since(start));
    if x.time >= start {
      FilterOne(a, x, p);
      if p(x) {
        SumOne(Filter(a, p), x);
      } else {
        assert Filter(a, p) + [] == Filter(a, p);
      }
    } else {
      assert a + [] == a;
    }
  }

  lemma NearOne(e: Engine, t: Txn, history: seq<Txn>, x: Txn)
    ensures NearThresholdCount(e, t, history + [x])
            == NearThresholdCount(e, t, history) + if x.time >= t.time - 7 * DAY && NearAny(e, x) then 1 else 0
  {
    hide Filter, NearThreshold, NearAny;
    var recent := Filter(history, Since(t.time - 7 * DAY));
    FilterOne(history, x, Since(t.time - 7 * DAY));
    NearMeans(e, x);
    if x.time >= t.time - 7 * DAY {
      assert [t] + (recent + [x]) == ([t] + recent) + [x];
      FilterOne([t] + recent, x, NearThreshold(e));
    } else {
      assert recent + [] == recent;
    }
  }

  lemma UnitsSum(a: int, b: int)
    ensures Units(a + b) == Units(a) + Units(b)
  {
  }

  /** Main result: what one more observed transaction adds. Counts span currencies and totals do not; a
      transaction counts from the very start of its window on; near-threshold amounts count for seven days. */
  lemma OneMoreObserved(e: Engine, t: Txn, history: seq<Txn>, x: Txn)
    requires e.Valid()
    ensures var v, w := ComputeVelocity(e, t, history), ComputeVelocity(e, t, history + [x]);
            var inLong, inShort := x.time >= t.time - e.longDays * DAY, x.time >= t.time - e.shortDays * DAY;
            var same := x.currency == t.currency;
            && w.longCount == v.longCount + (if inLong then 1 else 0)
            && w.shortCount == v.shortCount + (if inShort then 1 else 0)
            && w.sameCurrencyCount == v.sameCurrencyCount + (if inLong && same then 1 else 0)
            && w.longTotal == v.longTotal + (if inLong && same then Units(x.amount) else 0.0)
            && w.shortTotal == v.shortTotal + (if inShort && same then Units(x.amount) else 0.0)
            && w.nearThresholdCount
               == v.nearThresholdCount + (if x.time >= t.time - 7 * DAY && NearAny(e, x) then 1 else 0)
  {
    hide Filter, Sum, Features.NearThresholdCount, NearAny, Units;
    WindowOne(t, history, x, t.time - e.longDays * DAY);
    WindowOne(t, history, x, t.time - e.shortDays * DAY);
    NearOne(e, t, history, x);
    UnitsSum(Sum(Filter(Filter(history, Since(t.time - e.longDays * DAY)), InCurrency(t.currency)), AmountOf()),
             x.amount);
    UnitsSum(Sum(Filter(Filter(history, Since(t.time - e.shortDays * DAY)), InCurrency(t.currency)), AmountOf()),
             x.amount);
  }

  /** With nothing observed, nothing is counted but a near-threshold candidate itself. */
  lemma NothingObserved(e: Engine, t: Txn)
    requires e.Valid()
    ensures var v := ComputeVelocity(e, t, []);
            && v.longCount == 0 && v.shortCount == 0 && v.sameCurrencyCount == 0
            && v.longTotal == 0.0 && v.shortTotal == 0.0
            && v.nearThresholdCount == if NearAny(e, t) then 1 else 0
  {
    hide NearThreshold, NearAny;
    NearMeans(e, t);
    assert [t] + Filter([], Since(t.time - 7 * DAY)) == [t];
    FilterOne([], t, NearThreshold(e));
    assert [] + [t] == [t];
  }

  // ---- Scores -----------------------------------------------------------------------------

  /** `score` rises evenly from 0 at `lo` to 1 at `hi`. */
  predicate RisesFrom(score: real, x: real, lo: real, hi: real) {
    && (x <= lo ==> score == 0.0) && (x >= hi ==> score == 1.0)
    && (lo <= x <= hi ==> score * (hi - lo) == x - lo)
  }

  lemma Rises(x: real, lo: real, width: real)
    requires width > 0.0
    ensures RisesFrom(MinReal(MaxReal((x - lo) / width, 0.0), 1.0), x, lo, lo + width)
    ensures RisesFrom(MinReal(MaxReal(x - lo, 0.0) / width, 1.0), x, lo, lo + width)
  {
    var part := (x - lo) / width;
    Quotient(x - lo, width);
    QuotientUnique(0.0, width, 0.0);
    ProductOrder(part, 1.0, width);
    EvenRise(part, x, lo, width);
  }

  lemma EvenRise(part: real, x: real, lo: real, width: real)
    requires width > 0.0 && part * width == x - lo && (part <= 1.0 <==> x - lo <= width) && (part >= 0.0 <==> x >= lo)
    ensures RisesFrom(MinReal(MaxReal(part, 0.0), 1.0), x, lo, lo + width)
  {
    var hi := lo + width;
    ProductOrder(part, 1.0, width);
    ProductOrder(0.0, part, width);
    assert hi - lo == width;
  }

  /** Main result: what the velocity scores measure. Velocity is full at two transactions a day, acceleration
      at two a day more in the short window than in the long one, structuring at four near-threshold amounts,
      and the deviation is in averages, at most five. */
  lemma VelocityScores(e: Engine, t: Txn, history: seq<Txn>)
    requires e.Valid()
    ensures var v := ComputeVelocity(e, t, history);
            var long, short := v.longCount as real / e.longDays as real, v.shortCount as real / e.shortDays as real;
            && RisesFrom(v.score, long, 0.0, 2.0)
            && RisesFrom(v.acceleration, short - long, 0.0, 2.0)
            && RisesFrom(v.structuringScore, v.nearThresholdCount as real, 0.0, 4.0)
            && (v.sameCurrencyCount == 0 ==> v.longAverage == 0.0) && (v.longAverage == 0.0 ==> v.deviation == 0.0)
            && (v.longAverage > 0.0 ==>
                  v.deviation * v.longAverage == MinReal(Abs(Units(t.amount) - v.longAverage), 5.0 * v.longAverage))
            && (if CountInShort(e, t, history) == 0 then v.shortAverage == 0.0
                else v.shortAverage * CountInShort(e, t, history) as real == v.shortTotal)
  {
    hide Filter, Sum, Features.NearThresholdCount, Units, Average;
    var v := ComputeVelocity(e, t, history);
    var long, short := v.longCount as real / e.longDays as real, v.shortCount as real / e.shortDays as real;
    Quotient(v.longCount as real, e.longDays as real);
    Rises(long, 0.0, 2.0);
    Rises(short - long, 0.0, 2.0);
    Rises(v.nearThresholdCount as real, 0.0, 4.0);
    if v.longAverage > 0.0 {
      DeviationIs(Abs(Units(t.amount) - v.longAverage), v.longAverage);
    }
    AverageIs(v.longTotal, v.sameCurrencyCount);
    AverageIs(v.shortTotal, CountInShort(e, t, history));
  }

  function CountInShort(e: Engine, t: Txn, history: seq<Txn>): nat {
    |Filter(Filter(history, Since(t.time - e.shortDays * DAY)), InCurrency(t.currency))|
  }

  lemma AverageIs(total: real, count: nat)
    ensures if count == 0 then Average(total, count) == 0.0 else Average(total, count) * count as real == total
  {
    if count > 0 {
      Quotient(total, count as real);
    }
  }

  lemma DeviationIs(distance: real, average: real)
    requires average > 0.0 && distance >= 0.0
    ensures MinReal(distance / average, 5.0) * average == MinReal(distance, 5.0 * average)
  {
    Quotient(distance, average);
    ProductOrder(distance / average, 5.0, average);
  }

  /** The anomaly score starts above a robust deviation of 3 and is full at 8, once the sample suffices. */
  lemma AnomalyScores(e: Engine, t: Txn, history: seq<Txn>)
    ensures var b := ComputeBehavior(e, t, history);
            var logs := Map(Sample(e, t, history), LogAmount(e));
            var z := UpwardZ(e.log1p(Units(t.amount)), logs);
            && (b.ready == 1.0 <==> b.sampleCount >= e.minHistory) && b.sampleCount == |Sample(e, t, history)|
            && (b.sampleCount < e.minHistory ==> b.ready == 0.0 && b.anomalyScore == 0.0 && b.robustZ == 0.0)
            && (b.sampleCount >= e.minHistory ==>
                  RisesFrom(b.anomalyScore, z, 3.0, 8.0) && b.robustZ == MinReal(z, 100.0))
  {
    hide Filter, Map, UpwardZ;
    var logs := Map(Sample(e, t, history), LogAmount(e));
    MapIndex(Sample(e, t, history), LogAmount(e));
    Rises(UpwardZ(e.log1p(Units(t.amount)), logs), 3.0, 5.0);
  }

  /** The sample: same currency, same direction, none specified being one, from the start of the long window. */
  lemma SampleIs(e: Engine, t: Txn, history: seq<Txn>, x: Txn)
    ensures multiset(Sample(e, t, history))[x]
            == if x.currency == t.currency && x.direction == t.direction && x.time >= t.time - e.longDays * DAY
               then multiset(history)[x] else 0
  {
    hide Filter;
    FilterMultiplicity(history, Comparable(t, t.time - e.longDays * DAY), x);
  }

  // ---- Fan-in and fan-out -----------------------------------------------------------------

  /** A payment between two accounts, other than `t` itself, in the hour before it. */
  predicate RecentPayment(t: Txn, x: Txn, payer: string, payee: string) {
    && IsPayment(x, payer, payee) && payer != payee && x.id != t.id && x.time < t.time <= x.time + HOUR
  }

  predicate IsPayment(x: Txn, payer: string, payee: string) {
    x.direction == Some(Outbound) && x.account == payer && x.counterparty == Some(payee)
  }

  lemma EdgeIsPayment(t: Txn, x: Txn)
    ensures RecentEdge(t)(x) <==> x.counterparty.Some? && RecentPayment(t, x, x.account, x.counterparty.value)
  {
  }

  /** The accounts that paid this one within the hour. */
  function Payers(t: Txn, history: seq<Txn>): set<string> {
    set x | x in history && RecentPayment(t, x, x.account, t.account) :: x.account
  }

  /** The accounts this one paid within the hour. */
  function Payees(t: Txn, history: seq<Txn>): set<string> {
    set x | x in history && x.counterparty.Some? && RecentPayment(t, x, t.account, x.counterparty.value)
      :: x.counterparty.value
  }

  /** Main result: fan-in is the number of accounts that paid this one within the hour, fan-out that of the
      accounts it has paid or is paying, whose score starts above three and is full at ten. */
  lemma FlowsCount(t: Txn, history: seq<Txn>)
    ensures var w := ComputeNetwork(t, history);
            if HasNetwork(t) then
              && w.available == 1.0
              && w.fanIn == |Payers(t, history)|
              && w.fanOut == |Payees(t, history) + {t.counterparty.value}|
              && RisesFrom(w.fanOutScore, w.fanOut as real, 3.0, 10.0)
            else w == NetworkFeatures(0.0, 0, 0, 0.0, 0.0, 0.0)
    ensures HasNetwork(t) <==> exists payee :: payee != t.account && IsPayment(t, t.account, payee)
  {
    hide Filter, PassesThrough, AnyReciprocates;
    if HasNetwork(t) {
      var w := ComputeNetwork(t, history);
      assert IsPayment(t, t.account, t.counterparty.value);
      SendersAre(t, history);
      RecipientsAre(t, history);
      assert {t.counterparty.value} + Payees(t, history) == Payees(t, history) + {t.counterparty.value};
      Rises(w.fanOut as real, 3.0, 7.0);
    }
  }

  lemma SendersAre(t: Txn, history: seq<Txn>)
    ensures Senders(Incoming(t, history))
            == Payers(t, history)
  {
    hide Filter;
    forall x
      ensures x in Incoming(t, history) <==> x in history && RecentPayment(t, x, x.account, t.account)
    {
      FilterMember(history, RecentEdge(t), x);
      FilterMember(Filter(history, RecentEdge(t)), PaidTo(t.account), x);
      EdgeIsPayment(t, x);
    }
  }

  lemma RecipientsAre(t: Txn, history: seq<Txn>)
    ensures Recipients(Outgoing(t, history)) == Payees(t, history)
  {
    hide Filter;
    forall x
      ensures x in Outgoing(t, history) <==>
                x in history && x.counterparty.Some? && RecentPayment(t, x, t.account, x.counterparty.value)
    {
      FilterMember(history, RecentEdge(t), x);
      FilterMember(Filter(history, RecentEdge(t)), PaidBy(t.account), x);
      EdgeIsPayment(t, x);
    }
  }

  // ---- Country and customer ---------------------------------------------------------------

  /** Country risk orders the listings: a call for action above increased monitoring above none. */
  lemma ListingOrders(e: Engine, t: Txn, u: Txn)
    ensures var a, b := ComputeCountry(e, t), ComputeCountry(e, u);
            && (a.callForAction == 1.0 <==> t.country in e.callForAction) && a.highRisk == a.callForAction
            && (a.increasedMonitoring == 1.0 <==> t.country in e.increasedMonitoring)
            && (a.risk < b.risk <==>
                  && t.country !in e.callForAction
                  && (u.country in e.callForAction
                      || (u.country in e.increasedMonitoring && t.country !in e.increasedMonitoring)))
            && a.risk in {0.2, 0.6, 0.9}
  {
  }

  /** Levels of diligence, the least first. */
  function Diligence(k: KycLevel): nat {
    match k
    case Basic => 1
    case Standard => 2
    case Enhanced => 3
  }

  predicate Known(t: Txn, customers: map<string, Customer>, accounts: map<string, Account>) {
    t.account in accounts && accounts[t.account].customerId in customers
  }

  /** The due-diligence gap falls with the level of diligence and is full without a customer on file. */
  lemma DiligenceOrders(t: Txn, customers: map<string, Customer>, accounts: map<string, Account>,
                        u: Txn, customers': map<string, Customer>, accounts': map<string, Account>)
    requires Known(t, customers, accounts)
    ensures var a, b := ComputeCustomer(t, customers, accounts), ComputeCustomer(u, customers', accounts');
            && a.kycAvailable == 1.0 && a.pepAvailable == 1.0 && a.kycGap in {0.1, 0.3, 0.7}
            && (a.pepExposure == 1.0 <==> customers[accounts[t.account].customerId].pep)
            && (Known(u, customers', accounts') ==>
                  (a.kycGap > b.kycGap <==> Diligence(customers[accounts[t.account].customerId].kyc)
                                            < Diligence(customers'[accounts'[u.account].customerId].kyc)))
            && (!Known(u, customers', accounts') ==> b == CustomerFeatures(0.0, 1.0, 0.0, 0.0, 0.0, 1.0))
  {
  }

  /** The age score rises over a year of whole days, from none for an account opened later than the payment. */
  lemma AccountAge(t: Txn, customers: map<string, Customer>, accounts: map<string, Account>, days: int, rest: nat)
    requires Known(t, customers, accounts)
    requires t.time == accounts[t.account].openedAt + days * DAY + rest && rest < DAY
    ensures RisesFrom(ComputeCustomer(t, customers, accounts).ageScore, days as real, 0.0, 365.0)
  {
    assert (t.time - accounts[t.account].openedAt) / DAY == days;
    Rises(days as real, 0.0, 365.0);
  }
}
