/** What truncation can overstate: exactly which features, for which sizes of their windows. */
module Overstatement {
  import opened Basics
  import opened Sequences
  import opened Features
  import opened Store
  import opened Windows
  import opened Refinement
  import opened Truncation
  import opened Identifiers
  import opened Acceptance

  // ---- Histories in two parts -------------------------------------------------------------

  lemma FilterSplit<T>(a: seq<T>, b: seq<T>, p: T -> bool)
    requires (forall x :: x in a ==> p(x)) && (forall x :: x in b ==> !p(x))
    ensures Filter(a + b, p) == a
  {
    FilterConcat(a, b, p);
    FilterAll(a, p);
    FilterNone(b, p);
  }

  /** The history of one account in two parts: as many recent transactions as the limit, and older ones. */
  ghost predicate Split(c: Config, recent: seq<Txn>, past: seq<Txn>, t: Txn, since: int)
    requires c.Valid()
  {
    && DistinctIds(recent + past) && (forall x :: x in recent + past ==> x.id != t.id && x.account == t.account)
    && t.time - c.engine.WindowDays() * DAY <= since <= t.time
    && (forall x :: x in recent ==> since <= x.time < t.time)
    && (forall x :: x in past ==> t.time - c.engine.WindowDays() * DAY <= x.time < since)
  }

  lemma SplitObserved(c: Config, recent: seq<Txn>, past: seq<Txn>, t: Txn, since: int)
    requires c.Valid() && Split(c, recent, past, t, since)
    ensures var s := StoreOf(c, recent + past);
            && TableInv(s) && NotStored(s, t)
            && multiset(Observed(c, s, t, since)) == multiset(recent)
            && multiset(HistoricalAccountTransactions(c.engine, t, Payloads(s.rows))) == multiset(recent + past)
  {
    hide Filter, Sort, Compute, Observed, StoreOf, Reachable, AcceptedEvidence;
    var s, all := StoreOf(c, recent + past), recent + past;
    assert forall x :: x in all <==> x in recent || x in past;
    StoreIsValid(c, all, t);
    StoredPayloads(c, all);
    ObservedMatches(c, s, t, since);
    FilterSplit(recent, past, Matches(AccountColumn, t.account, since, t.time));
    forall x | x in all
      ensures ObservedBefore(c.engine, t)(x)
    {
    }
    FilterAll(all, ObservedBefore(c.engine, t));
    NotLaterOrders();
    SortSorts(all, NotLater);
  }

  lemma SplitHistory(c: Config, recent: seq<Txn>, past: seq<Txn>, t: Txn, since: int)
    requires c.Valid() && Split(c, recent, past, t, since) && |recent| == c.maxHistory
    ensures multiset(HistoryWindow(c, StoreOf(c, recent + past).rows, t).0) == multiset(recent)
  {
    hide Filter, Kept, Window, Observed, Compute, Split;
    var s := StoreOf(c, recent + past);
    var history := HistoryWindow(c, s.rows, t).0;
    SplitObserved(c, recent, past, t, since);
    SizePerm(Observed(c, s, t, since), recent);
    SplitStart(c, recent, past, t, since);
    RecentHistory(c, s, t, since);
    FilterWithin(history, Since(since));
    HistoryFits(c, s, t);
    SubOfSameSize(Seen(c, s, t, since), history);
  }

  lemma SplitStart(c: Config, recent: seq<Txn>, past: seq<Txn>, t: Txn, since: int)
    requires c.Valid() && Split(c, recent, past, t, since)
    ensures t.time - c.engine.WindowDays() * DAY <= since
  {
  }

  /** The features of both computations, told on the two parts. */
  lemma SplitFeatures(c: Config, recent: seq<Txn>, past: seq<Txn>, t: Txn, since: int)
    requires c.Valid() && Split(c, recent, past, t, since) && |recent| == c.maxHistory
    ensures var s := StoreOf(c, recent + past);
            var r := Compute(c, s, t, 0).features;
            var scan := ScanFeatures(c.engine, t, Payloads(s.rows), s.customers, s.accounts);
            && r.velocity == ComputeVelocity(c.engine, t, recent) && r.behavior == ComputeBehavior(c.engine, t, recent)
            && scan.velocity == ComputeVelocity(c.engine, t, recent + past)
            && scan.behavior == ComputeBehavior(c.engine, t, recent + past)
  {
    hide HistoryWindow, HistoricalAccountTransactions, NetworkWindows, ComputeVelocity, ComputeBehavior, StoreOf;
    hide ComputeNetwork, Split, Observed;
    var s := StoreOf(c, recent + past);
    var scan := HistoricalAccountTransactions(c.engine, t, Payloads(s.rows));
    SplitHistory(c, recent, past, t, since);
    SplitObserved(c, recent, past, t, since);
    VelocityPerm(c.engine, t, HistoryWindow(c, s.rows, t).0, recent);
    BehaviorPerm(c.engine, t, HistoryWindow(c, s.rows, t).0, recent);
    VelocityPerm(c.engine, t, scan, recent + past);
    BehaviorPerm(c.engine, t, scan, recent + past);
  }

  // ---- Histories made of equal transactions -----------------------------------------------

  const SUBJECT := "A"

  function Entry(i: nat, time: int, amount: Money): Txn {
    Txn(Label(i), SUBJECT, time, amount, "USD", "US", None, None, None, None)
  }

  function Batch(from: nat, n: nat, time: int, amount: Money): seq<Txn>
    decreases n
  {
    if n == 0 then [] else [Entry(from, time, amount)] + Batch(from + 1, n - 1, time, amount)
  }

  lemma {:induction false} BatchAt(from: nat, n: nat, time: int, amount: Money)
    ensures |Batch(from, n, time, amount)| == n
    ensures forall i :: 0 <= i < n ==> Batch(from, n, time, amount)[i] == Entry(from + i, time, amount)
    decreases n
  {
    if n > 0 {
      BatchAt(from + 1, n - 1, time, amount);
    }
  }

  /** Identifiers tell their place in the list. */
  predicate Labelled(s: seq<Txn>, from: nat) {
    forall i :: 0 <= i < |s| ==> s[i].id == Label(from + i)
  }

  lemma LabelledIsDistinct(s: seq<Txn>)
    requires Labelled(s, 0)
    ensures DistinctIds(s)
    ensures forall y :: y in s ==> y.id != Label(|s|)
  {
    hide Label;
    forall i, j | 0 <= i < j <= |s|
      ensures Label(i) != Label(j)
    {
      LabelsDiffer(i, j);
    }
  }

  predicate Like(s: seq<Txn>, time: int, amount: Money) {
    forall x :: x in s ==>
      && x.account == SUBJECT && x.time == time && x.amount == amount && x.currency == "USD" && x.direction == None
  }

  lemma BatchIsLike(from: nat, n: nat, time: int, amount: Money)
    ensures |Batch(from, n, time, amount)| == n && Labelled(Batch(from, n, time, amount), from)
    ensures Like(Batch(from, n, time, amount), time, amount)
  {
    hide Batch;
    BatchAt(from, n, time, amount);
    forall x | x in Batch(from, n, time, amount)
      ensures x.account == SUBJECT && x.time == time && x.amount == amount && x.currency == "USD" && x.direction == None
    {
      var i :| 0 <= i < n && Batch(from, n, time, amount)[i] == x;
    }
  }

  /** The most recent part of the history: two batches of one moment. */
  function Recent(k: nat, amount: Money, m: nat, other: Money): seq<Txn> {
    Batch(0, k, 1, amount) + Batch(k, m, 1, other)
  }

  /** The part just before it. */
  function Past(from: nat, n: nat, amount: Money): seq<Txn> {
    Batch(from, n, 0, amount)
  }

  function Candidate(i: nat, amount: Money): Txn {
    Entry(i, 2, amount)
  }

  ghost predicate InOneDay(s: seq<Txn>) {
    forall x :: x in s ==> 0 <= x.time < 2 && x.account == SUBJECT && x.currency == "USD" && x.direction == None
  }

  lemma PartsSplit(c: Config, k: nat, a: Money, m: nat, b: Money, n: nat, d: Money, x: Money)
    requires c.Valid()
    ensures var recent, past := Recent(k, a, m, b), Past(k + m, n, d);
            && |recent| == k + m && |past| == n && InOneDay(recent + past)
            && Split(c, recent, past, Candidate(k + m + n, x), 1)
  {
    hide Batch;
    var recent, past := Recent(k, a, m, b), Past(k + m, n, d);
    BatchIsLike(0, k, 1, a);
    BatchIsLike(k, m, 1, b);
    BatchIsLike(k + m, n, 0, d);
    assert forall y: Txn :: y in recent <==> y in Batch(0, k, 1, a) || y in Batch(k, m, 1, b);
    assert forall y: Txn :: y in recent + past <==> y in recent || y in past;
    assert Labelled(recent + past, 0);
    LabelledIsDistinct(recent + past);
  }

  /** The batches and the candidate are evidence the boundary lets through. */
  lemma EntryAccepted(i: nat, time: int, amount: Money)
    requires i <= LARGEST && InCalendar(time) && AcceptedAmount(amount)
    ensures AcceptedEvidence(Entry(i, time, amount))
  {
    hide Label, AcceptedAmount;
    LabelIsIdentifier(i, 'S');
  }

  lemma BatchAccepted(from: nat, n: nat, time: int, amount: Money)
    requires from + n <= LARGEST && InCalendar(time) && AcceptedAmount(amount)
    ensures forall x :: x in Batch(from, n, time, amount) ==> AcceptedEvidence(x)
  {
    hide Batch, AcceptedAmount, AcceptedEvidence, Entry;
    BatchAt(from, n, time, amount);
    forall x | x in Batch(from, n, time, amount)
      ensures AcceptedEvidence(x)
    {
      var i :| 0 <= i < n && Batch(from, n, time, amount)[i] == x;
      EntryAccepted(from + i, time, amount);
    }
  }

  lemma PartsAccepted(k: nat, a: Money, m: nat, b: Money, n: nat, d: Money, x: Money)
    requires k + m + n <= LARGEST
    requires a <= 100_000 && b <= 100_000 && d <= 100_000 && x <= 100_000
    ensures AcceptedEvidence(Candidate(k + m + n, x))
    ensures forall y :: y in Recent(k, a, m, b) + Past(k + m, n, d) ==> AcceptedEvidence(y)
  {
    hide AcceptedEvidence, Batch, AcceptedAmount;
    SmallAmount(a);
    SmallAmount(b);
    SmallAmount(d);
    SmallAmount(x);
    BatchAccepted(0, k, 1, a);
    BatchAccepted(k, m, 1, b);
    BatchAccepted(k + m, n, 0, d);
    EntryAccepted(k + m + n, 2, x);
  }

  /** A window that starts no later than the whole history sees all of it. */
  lemma SplitStartsAt(c: Config, recent: seq<Txn>, past: seq<Txn>, t: Txn, since: int, start: int)
    requires c.Valid() && Split(c, recent, past, t, since) && t.time - c.engine.WindowDays() * DAY <= start
    requires forall x :: x in recent + past ==> x.time >= start
    ensures |Observed(c, StoreOf(c, recent + past), t, start)| == |recent| + |past|
  {
    hide Filter, StoreOf, Observed;
    var s, all := StoreOf(c, recent + past), recent + past;
    SplitObserved(c, recent, past, t, since);
    StoredPayloads(c, all);
    ObservedMatches(c, s, t, start);
    assert forall y: Txn :: y in all <==> y in recent || y in past;
    FilterAll(all, Matches(AccountColumn, t.account, start, t.time));
    SizePerm(Observed(c, s, t, start), all);
  }

  // ---- Averages and deviation -------------------------------------------------------------

  /** The feature is never above its value on the full scan, in any store that can come about and whose
      last `days` days hold `n` transactions of the account, for any candidate that can be received. */
  ghost predicate NeverOverstated(c: Config, days: nat, n: nat, f: FeatureSet -> real)
    requires c.Valid()
  {
    forall s: Tables, t: Txn, now: int ::
      CanMeet(c, s, t) && |Observed(c, s, t, t.time - days * DAY)| == n ==>
        f(Compute(c, s, t, now).features)
        <= f(ScanFeatures(c.engine, t, Payloads(s.rows), s.customers, s.accounts))
  }

  lemma Times(n: int, m: int)
    ensures 0 * m == 0 && (n + 1) * m == m + n * m
  {
  }

  lemma {:induction false} SumOfEqual(s: seq<Txn>, amount: Money)
    requires forall x :: x in s ==> x.amount == amount
    ensures Sum(s, AmountOf()) == |s| * amount
    decreases |s|
  {
    if s == [] {
      Times(0, amount);
    } else {
      assert s[0] in s && forall x :: x in s[1..] ==> x in s;
      SumOfEqual(s[1..], amount);
      Times(|s| - 1, amount);
    }
  }

  lemma OneDayVelocity(e: Engine, t: Txn, s: seq<Txn>)
    requires e.Valid() && InOneDay(s) && t.time == 2 && t.currency == "USD"
    ensures var v, average := ComputeVelocity(e, t, s), Average(Units(Sum(s, AmountOf())), |s|);
            && v.longAverage == average && v.shortAverage == average
            && v.deviation == MinReal(if average > 0.0 then Abs(Units(t.amount) - average) / average else 0.0, 5.0)
  {
    hide Filter, Sum, NearThresholdCount, Average, Units, Abs, InOneDay;
    OneDayWindows(e, t, s);
  }

  lemma OneDayWindows(e: Engine, t: Txn, s: seq<Txn>)
    requires e.Valid() && InOneDay(s) && t.time == 2 && t.currency == "USD"
    ensures Filter(s, Since(t.time - e.longDays * DAY)) == s && Filter(s, Since(t.time - e.shortDays * DAY)) == s
    ensures Filter(s, InCurrency(t.currency)) == s
  {
    hide Filter;
    FilterAll(s, Since(t.time - e.longDays * DAY));
    FilterAll(s, Since(t.time - e.shortDays * DAY));
    FilterAll(s, InCurrency(t.currency));
  }

  lemma AverageOf(total: int, count: nat, m: int)
    requires count > 0
    ensures total < m * count ==> Average(Units(total), count) < Units(m)
    ensures total == m * count ==> Average(Units(total), count) == Units(m)
    ensures total > m * count ==> Average(Units(total), count) > Units(m)
  {
    var q, k := Average(Units(total), count), count as real;
    Quotient(Units(total), k);
    ProductOrder(q, Units(m), k);
    ProductOrder(Units(m), q, k);
    assert Units(m) * k == Units(m * count);
  }

  /** What the index and the scan compute for a candidate on one stored history. */
  function Indexed(c: Config, s: Tables, t: Txn): FeatureSet
    requires c.Valid()
  {
    Compute(c, s, t, 0).features
  }

  function Scanned(c: Config, s: Tables, t: Txn): FeatureSet
    requires c.Valid()
  {
    ScanFeatures(c.engine, t, Payloads(s.rows), s.customers, s.accounts)
  }

  lemma LongWindowFits(c: Config, s: Tables, t: Txn, now: int)
    requires c.Valid() && TableInv(s) && NotStored(s, t)
    requires |Observed(c, s, t, t.time - c.engine.longDays * DAY)| <= c.maxHistory
    ensures var r := Compute(c, s, t, now).features;
            var scan := Scanned(c, s, t);
            && SameLong(r.velocity, scan.velocity) && r.velocity.acceleration == scan.velocity.acceleration
            && r.behavior == scan.behavior
  {
    hide ComputeVelocity, ComputeBehavior, ComputeNetwork, TableInv, NotStored, SameLong, SameShort;
    hide HistoryWindow, NetworkWindows, HistoricalAccountTransactions, Acceleration;
    CountsGiveRates(c.engine, t, HistoricalAccountTransactions(c.engine, t, Payloads(s.rows)));
    RecentWindowsAreExact(c, s, t, now);
  }

  lemma ShortWindowFits(c: Config, s: Tables, t: Txn, now: int)
    requires c.Valid() && TableInv(s) && NotStored(s, t)
    requires |Observed(c, s, t, t.time - c.engine.shortDays * DAY)| <= c.maxHistory
    ensures SameShort(Compute(c, s, t, now).features.velocity, Scanned(c, s, t).velocity)
  {
    hide ComputeVelocity, ComputeBehavior, ComputeNetwork, TableInv, NotStored, SameLong, SameShort;
    hide HistoryWindow, NetworkWindows, HistoricalAccountTransactions, Acceleration;
    CountsGiveRates(c.engine, t, HistoricalAccountTransactions(c.engine, t, Payloads(s.rows)));
    RecentWindowsAreExact(c, s, t, now);
  }

  lemma SplitMeets(c: Config, recent: seq<Txn>, past: seq<Txn>, t: Txn, since: int)
    requires c.Valid() && Split(c, recent, past, t, since)
    requires AcceptedEvidence(t) && forall x :: x in recent + past ==> AcceptedEvidence(x)
    ensures CanMeet(c, StoreOf(c, recent + past), t)
  {
    hide StoreOf, AcceptedEvidence, CanMeet;
    StoreIsValid(c, recent + past, t);
  }

  /** The store, the candidate and both results for a history of two recent batches and a past one. */
  lemma Witness(c: Config, k: nat, a: Money, m: nat, b: Money, n: nat, d: Money, x: Money)
    requires c.Valid() && k + m == c.maxHistory && k + m + n <= LARGEST
    requires a <= 100_000 && b <= 100_000 && d <= 100_000 && x <= 100_000
    ensures var recent, past, t := Recent(k, a, m, b), Past(k + m, n, d), Candidate(k + m + n, x);
            var s := StoreOf(c, recent + past);
            && CanMeet(c, s, t)
            && |Observed(c, s, t, t.time - c.engine.longDays * DAY)| == k + m + n
            && |Observed(c, s, t, t.time - c.engine.shortDays * DAY)| == k + m + n
            && Indexed(c, s, t).velocity == ComputeVelocity(c.engine, t, recent)
            && Indexed(c, s, t).behavior == ComputeBehavior(c.engine, t, recent)
            && Scanned(c, s, t).velocity == ComputeVelocity(c.engine, t, recent + past)
            && Scanned(c, s, t).behavior == ComputeBehavior(c.engine, t, recent + past)
            && InOneDay(recent) && InOneDay(recent + past) && |recent| == k + m && |past| == n
  {
    hide Observed, StoreOf, Compute, ScanFeatures, ComputeVelocity, ComputeBehavior, Recent, Past, Split;
    hide TableInv, NotStored, CanMeet, AcceptedEvidence;
    var recent, past, t := Recent(k, a, m, b), Past(k + m, n, d), Candidate(k + m + n, x);
    PartsSplit(c, k, a, m, b, n, d, x);
    PartsAccepted(k, a, m, b, n, d, x);
    SplitMeets(c, recent, past, t, 1);
    assert forall y: Txn :: y in recent ==> y in recent + past;
    SplitFeatures(c, recent, past, t, 1);
    SplitObserved(c, recent, past, t, 1);
    assert c.engine.WindowDays() >= c.engine.longDays >= c.engine.shortDays >= 1;
    SplitStartsAt(c, recent, past, t, 1, t.time - c.engine.longDays * DAY);
    SplitStartsAt(c, recent, past, t, 1, t.time - c.engine.shortDays * DAY);
  }

  function LongAverage(): FeatureSet -> real {
    (f: FeatureSet) => f.velocity.longAverage
  }

  function ShortAverage(): FeatureSet -> real {
    (f: FeatureSet) => f.velocity.shortAverage
  }

  function Deviation(): FeatureSet -> real {
    (f: FeatureSet) => f.velocity.deviation
  }

  lemma PartSums(k: nat, a: Money, n: nat, d: Money)
    ensures var recent, past := Recent(k, a, 0, a), Past(k, n, d);
            && Sum(recent, AmountOf()) == k * a && Sum(recent + past, AmountOf()) == k * a + n * d
            && |recent| == k && |past| == n
  {
    hide Batch, Sum;
    BatchIsLike(0, k, 1, a);
    BatchIsLike(k, 0, 1, a);
    BatchIsLike(k, n, 0, d);
    assert Recent(k, a, 0, a) == Batch(0, k, 1, a);
    SumOfEqual(Recent(k, a, 0, a), a);
    SumOfEqual(Past(k, n, d), d);
    SumConcat(Recent(k, a, 0, a), Past(k, n, d), AmountOf());
  }

  /** Newer payments of two units hide older ones of one. */
  lemma AverageWitness(c: Config, n: nat)
    requires c.Valid() && c.maxHistory < n <= LARGEST
    ensures !NeverOverstated(c, c.engine.longDays, n, LongAverage())
    ensures !NeverOverstated(c, c.engine.shortDays, n, ShortAverage())
  {
    hide Observed, StoreOf, Compute, ScanFeatures, ComputeVelocity, ComputeBehavior, Recent, Past, CanMeet;
    hide Average, Units, Sum;
    var h, older := c.maxHistory, n - c.maxHistory;
    var recent, past, t := Recent(h, 2, 0, 2), Past(h, older, 1), Candidate(n, 2);
    var s := StoreOf(c, recent + past);
    Witness(c, h, 2, 0, 2, older, 1, 2);
    PartSums(h, 2, older, 1);
    OneDayVelocity(c.engine, t, recent);
    OneDayVelocity(c.engine, t, recent + past);
    AverageOf(2 * h, h, 2);
    AverageOf(2 * h + older, n, 2);
    assert LongAverage()(Compute(c, s, t, 0).features) > LongAverage()(Scanned(c, s, t));
    assert ShortAverage()(Compute(c, s, t, 0).features) > ShortAverage()(Scanned(c, s, t));
  }

  /** A payment of two units is far from recent ones of one unit and nearer to a past of two. */
  lemma DeviationWitness(c: Config, n: nat)
    requires c.Valid() && c.maxHistory < n <= LARGEST
    ensures !NeverOverstated(c, c.engine.longDays, n, Deviation())
  {
    hide Observed, StoreOf, Compute, ScanFeatures, ComputeVelocity, ComputeBehavior, Recent, Past, CanMeet;
    hide Average, Sum;
    var h, older := c.maxHistory, n - c.maxHistory;
    var recent, past, t := Recent(h, 1, 0, 1), Past(h, older, 2), Candidate(n, 2);
    var s := StoreOf(c, recent + past);
    Witness(c, h, 1, 0, 1, older, 2, 2);
    PartSums(h, 1, older, 2);
    OneDayVelocity(c.engine, t, recent);
    OneDayVelocity(c.engine, t, recent + past);
    AverageOf(h, h, 1);
    AverageOf(h + 2 * older, n, 1);
    AverageOf(h + 2 * older, n, 2);
    NearerIsLess(Average(Units(h), h), Average(Units(h + 2 * older), n));
    assert Deviation()(Compute(c, s, t, 0).features) > Deviation()(Scanned(c, s, t));
  }

  lemma NearerIsLess(one: real, q: real)
    requires one == Units(1) < q < Units(2)
    ensures Abs(Units(2) - one) / one == 1.0 && 0.0 <= Abs(Units(2) - q) / q < 1.0
  {
    QuotientUnique(Units(2) - one, one, 1.0);
    var r := (Units(2) - q) / q;
    Quotient(Units(2) - q, q);
    ProductOrder(r, 1.0, q);
  }

  /** Main result: the averages and the deviation from them are never overstated exactly while their own
      window fits the limit; for every size beyond it, up to the `LARGEST` the labels are claimed for, a
      store can come about where they are. */
  lemma AveragesNeedTheirWindow(c: Config, n: nat)
    requires c.Valid() && n <= LARGEST
    ensures NeverOverstated(c, c.engine.longDays, n, LongAverage()) <==> n <= c.maxHistory
    ensures NeverOverstated(c, c.engine.shortDays, n, ShortAverage()) <==> n <= c.maxHistory
    ensures NeverOverstated(c, c.engine.longDays, n, Deviation()) <==> n <= c.maxHistory
  {
    hide Observed, Compute, ScanFeatures, TableInv, NotStored, CanMeet;
    if n > c.maxHistory {
      AverageWitness(c, n);
      DeviationWitness(c, n);
    } else {
      forall s: Tables, t: Txn, now: int | CanMeet(c, s, t)
        ensures |Observed(c, s, t, t.time - c.engine.longDays * DAY)| == n ==>
                  SameLong(Compute(c, s, t, now).features.velocity, Scanned(c, s, t).velocity)
        ensures |Observed(c, s, t, t.time - c.engine.shortDays * DAY)| == n ==>
                  SameShort(Compute(c, s, t, now).features.velocity, Scanned(c, s, t).velocity)
      {
        MeetingIsValid(c, s, t);
        if |Observed(c, s, t, t.time - c.engine.longDays * DAY)| == n {
          LongWindowFits(c, s, t, now);
        }
        if |Observed(c, s, t, t.time - c.engine.shortDays * DAY)| == n {
          ShortWindowFits(c, s, t, now);
        }
      }
    }
  }

  // ---- Acceleration -----------------------------------------------------------------------

  function AccelerationOf(): FeatureSet -> real {
    (f: FeatureSet) => f.velocity.acceleration
  }

  /** As many transactions in the last days as make them just faster than a long window of `limit`. */
  function JustFaster(e: Engine, limit: nat): nat
    requires e.Valid()
  {
    limit * e.shortDays / e.longDays + 1
  }

  lemma JustFasterBounds(a: nat, p: nat, q: nat)
    requires 0 < a && 0 < p < q
    ensures a * p / q + 1 <= a && (a * p / q) * q <= a * p < (a * p / q + 1) * q
  {
    var f := a * p / q;
    assert f * q <= a * p < f * q + q;
    assert a * p < a * q by {
      assert a * (q - p) > 0;
    }
    TimesOrder(a, f, q);
  }

  lemma TimesOrder(a: nat, b: nat, q: nat)
    ensures a <= b ==> a * q <= b * q
  {
    if a <= b {
      assert (b - a) * q >= 0;
    }
  }

  lemma RateOrder(s: nat, p: nat, a: nat, q: nat)
    requires p > 0 && q > 0
    ensures s * q > a * p ==> s as real / p as real > a as real / q as real
    ensures s * q <= a * p ==> s as real / p as real <= a as real / q as real
  {
    var x, y := s as real / p as real, a as real / q as real;
    Quotient(s as real, p as real);
    Quotient(a as real, q as real);
    ProductSign(p as real, q as real);
    Scale2(x, y, s, p, a, q);
    ProductOrder(x, y, p as real * q as real);
    ProductOrder(y, x, p as real * q as real);
  }

  lemma Scale2(x: real, y: real, s: nat, p: nat, a: nat, q: nat)
    requires x * p as real == s as real && y * q as real == a as real
    ensures x * (p as real * q as real) == (s * q) as real && y * (p as real * q as real) == (a * p) as real
  {
    assert x * (p as real * q as real) == (x * p as real) * q as real;
    assert y * (p as real * q as real) == (y * q as real) * p as real;
    AsRealProduct(s, q);
    AsRealProduct(a, p);
  }

  lemma {:induction false} AsRealProduct(a: nat, b: nat)
    ensures (a * b) as real == a as real * b as real
  {
  }

  /** With a long window cut at `limit`, `JustFaster` transactions are an acceleration; uncut, a lesser one. */
  lemma CutAccelerates(e: Engine, limit: nat, n: nat)
    requires e.Valid() && e.shortDays < e.longDays && 0 < limit < n
    ensures var short := JustFaster(e, limit);
            short <= limit && Acceleration(e, short, limit) > Acceleration(e, short, n)
  {
    var p, q := e.shortDays, e.longDays;
    var short := JustFaster(e, limit);
    JustFasterBounds(limit, p, q);
    RateOrder(short, p, limit, q);
    RateOrder(short - 1, p, limit, q);
    StepRate(short, p);
    LessRate(limit, n, q);
  }

  lemma StepRate(s: nat, p: nat)
    requires s > 0 && p > 0
    ensures s as real / p as real - (s - 1) as real / p as real <= 1.0
  {
    var x, y := s as real / p as real, (s - 1) as real / p as real;
    Quotient(s as real, p as real);
    Quotient((s - 1) as real, p as real);
    Distribute(x, y, p as real);
    ProductOrder(x - y, 1.0, p as real);
  }

  lemma LessRate(a: nat, b: nat, q: nat)
    requires a < b && q > 0
    ensures a as real / q as real < b as real / q as real
  {
    Quotient(a as real, q as real);
    Quotient(b as real, q as real);
    ProductOrder(a as real / q as real, b as real / q as real, q as real);
  }

  /** The last day of the calendar, and how far apart two accepted timestamps can be. */
  const LATEST := 253_402_300_799_999_999
  const CALENDAR_DAYS := 3_652_058

  /** `short` transactions just before the candidate, the others just before the short window. */
  lemma PacedSplit(c: Config, short: nat, n: nat)
    requires c.Valid() && c.engine.shortDays < c.engine.longDays && short <= n
    ensures var since := LATEST - c.engine.shortDays * DAY;
            var recent, past := Batch(0, short, LATEST - 1, 1), Batch(short, n - short, since - 1, 1);
            && |recent| == short && |past| == n - short
            && Split(c, recent, past, Entry(n, LATEST, 1), since)
            && forall y :: y in recent + past ==> y.time >= LATEST - c.engine.longDays * DAY
  {
    hide Batch, Labelled, DistinctIds, Label;
    var since := LATEST - c.engine.shortDays * DAY;
    var recent, past := Batch(0, short, LATEST - 1, 1), Batch(short, n - short, since - 1, 1);
    BatchIsLike(0, short, LATEST - 1, 1);
    BatchIsLike(short, n - short, since - 1, 1);
    LabelledConcat(recent, past);
    LabelledIsDistinct(recent + past);
  }

  lemma LabelledConcat(a: seq<Txn>, b: seq<Txn>)
    requires Labelled(a, 0) && Labelled(b, |a|)
    ensures Labelled(a + b, 0)
  {
    hide Label;
  }

  lemma PacedMeets(c: Config, short: nat, n: nat)
    requires c.Valid() && c.engine.shortDays < c.engine.longDays && short <= n <= LARGEST
    requires c.engine.shortDays <= CALENDAR_DAYS
    ensures var since := LATEST - c.engine.shortDays * DAY;
            CanMeet(c, StoreOf(c, Batch(0, short, LATEST - 1, 1) + Batch(short, n - short, since - 1, 1)),
                    Entry(n, LATEST, 1))
  {
    hide Batch, Entry, AcceptedEvidence, CanMeet, StoreOf, Split, AcceptedAmount;
    var since := LATEST - c.engine.shortDays * DAY;
    var recent, past := Batch(0, short, LATEST - 1, 1), Batch(short, n - short, since - 1, 1);
    assert InCalendar(LATEST) && InCalendar(LATEST - 1) && InCalendar(since - 1);
    SmallAmount(1);
    BatchAccepted(0, short, LATEST - 1, 1);
    BatchAccepted(short, n - short, since - 1, 1);
    EntryAccepted(n, LATEST, 1);
    PacedSplit(c, short, n);
    assert forall x: Txn :: x in recent + past <==> x in recent || x in past;
    SplitMeets(c, recent, past, Entry(n, LATEST, 1), since);
  }

  lemma AccelerationStore(c: Config, short: nat, n: nat)
    requires c.Valid() && c.engine.shortDays < c.engine.longDays && short <= n <= LARGEST
    requires c.engine.shortDays <= CALENDAR_DAYS
    ensures exists s, t :: CanMeet(c, s, t)
              && |Observed(c, s, t, t.time - c.engine.longDays * DAY)| == n
              && |Observed(c, s, t, t.time - c.engine.shortDays * DAY)| == short
  {
    hide StoreOf, Observed, Batch, CanMeet, Split;
    var since, t := LATEST - c.engine.shortDays * DAY, Entry(n, LATEST, 1);
    var recent, past := Batch(0, short, LATEST - 1, 1), Batch(short, n - short, since - 1, 1);
    PacedSplit(c, short, n);
    PacedMeets(c, short, n);
    SplitObserved(c, recent, past, t, since);
    SizePerm(Observed(c, StoreOf(c, recent + past), t, since), recent);
    SplitStartsAt(c, recent, past, t, since, LATEST - c.engine.longDays * DAY);
  }

  lemma AccelerationWitness(c: Config, n: nat)
    requires c.Valid() && c.maxHistory < n <= LARGEST && c.engine.shortDays < c.engine.longDays
    requires c.engine.shortDays <= CALENDAR_DAYS
    ensures !NeverOverstated(c, c.engine.longDays, n, AccelerationOf())
  {
    hide Observed, Compute, ScanFeatures, ComputeVelocity, CanMeet, Acceleration, JustFaster;
    var short := JustFaster(c.engine, c.maxHistory);
    CutAccelerates(c.engine, c.maxHistory, n);
    AccelerationStore(c, short, n);
    var s, t :| CanMeet(c, s, t)
                && |Observed(c, s, t, t.time - c.engine.longDays * DAY)| == n
                && |Observed(c, s, t, t.time - c.engine.shortDays * DAY)| == short;
    MeetingIsValid(c, s, t);
    AccelerationByCounts(c, s, t, 0);
    assert AccelerationOf()(Compute(c, s, t, 0).features) > AccelerationOf()(Scanned(c, s, t));
  }

  /** Both accelerations, told by how many transactions the two windows hold. */
  lemma AccelerationByCounts(c: Config, s: Tables, t: Txn, now: int)
    requires c.Valid() && TableInv(s) && NotStored(s, t)
    ensures var long := |Observed(c, s, t, t.time - c.engine.longDays * DAY)|;
            var short := |Observed(c, s, t, t.time - c.engine.shortDays * DAY)|;
            && Scanned(c, s, t).velocity.acceleration == Acceleration(c.engine, short, long)
            && Compute(c, s, t, now).features.velocity.acceleration
               == Acceleration(c.engine, MinInt(c.maxHistory, short), MinInt(c.maxHistory, long))
  {
    hide ComputeVelocity, ComputeBehavior, ComputeNetwork, TableInv, NotStored, SameLong, SameShort;
    hide HistoryWindow, NetworkWindows, HistoricalAccountTransactions, Acceleration;
    CountsGiveRates(c.engine, t, HistoricalAccountTransactions(c.engine, t, Payloads(s.rows)));
    RecentWindowsAreExact(c, s, t, now);
  }

  lemma GapOfRates(n: nat, p: nat, q: nat)
    requires p > 0 && q > 0
    ensures n as real / p as real - n as real / q as real == (1.0 / p as real - 1.0 / q as real) * n as real
  {
    AsShare(n, p);
    AsShare(n, q);
    Distribute(1.0 / p as real, 1.0 / q as real, n as real);
  }

  lemma GapsOrder(fewer: nat, n: nat, p: nat, q: nat)
    requires 0 < p <= q && fewer <= n
    ensures fewer as real / p as real - fewer as real / q as real <= n as real / p as real - n as real / q as real
  {
    Reciprocals(p, q);
    GapOfRates(fewer, p, q);
    GapOfRates(n, p, q);
    ScaledGap(1.0 / p as real - 1.0 / q as real, fewer as real, n as real);
  }

  /** Where both windows hold the same transactions, fewer of them accelerate less. */
  lemma SameWindowsAccelerate(e: Engine, fewer: nat, n: nat)
    requires e.Valid() && fewer <= n
    ensures Acceleration(e, fewer, fewer) <= Acceleration(e, n, n)
  {
    GapsOrder(fewer, n, e.shortDays, e.longDays);
  }

  lemma Reciprocals(p: nat, q: nat)
    requires 0 < p <= q
    ensures 1.0 / p as real >= 1.0 / q as real
  {
    var x, y := 1.0 / p as real, 1.0 / q as real;
    Quotient(1.0, p as real);
    Quotient(1.0, q as real);
    ProductOrder(p as real, q as real, y);
    ProductOrder(y, x, p as real);
  }

  lemma AsShare(n: nat, d: nat)
    requires d > 0
    ensures n as real / d as real == (1.0 / d as real) * n as real
  {
    Quotient(1.0, d as real);
    var x := 1.0 / d as real;
    assert (x * n as real) * d as real == (x * d as real) * n as real;
    QuotientUnique(n as real, d as real, x * n as real);
  }

  lemma ScaledGap(gap: real, x: real, y: real)
    requires gap >= 0.0 && 0.0 <= x <= y
    ensures 0.0 <= gap * x <= gap * y
  {
  }

  /** A short window as long as the calendar holds everything the long one does. */
  lemma ShortHoldsAll(c: Config, s: Tables, t: Txn)
    requires c.Valid() && CanMeet(c, s, t) && c.engine.shortDays > CALENDAR_DAYS
    ensures |Observed(c, s, t, t.time - c.engine.shortDays * DAY)|
            == |Observed(c, s, t, t.time - c.engine.longDays * DAY)|
  {
    hide Filter, Observed, CanMeet;
    var all, early, late := Payloads(s.rows), t.time - c.engine.longDays * DAY, t.time - c.engine.shortDays * DAY;
    MeetingIsValid(c, s, t);
    MeetingTimes(c, s, t);
    ObservedMatches(c, s, t, early);
    ObservedMatches(c, s, t, late);
    var a, b := Matches(AccountColumn, t.account, early, t.time), Matches(AccountColumn, t.account, late, t.time);
    FilterWeaker(all, a, b);
    FilterWeaker(all, b, a);
    SizePerm(Observed(c, s, t, early), Filter(all, a));
    SizePerm(Observed(c, s, t, late), Filter(all, b));
    SizeSub(Filter(all, a), Filter(all, b));
    SizeSub(Filter(all, b), Filter(all, a));
  }

  lemma MeetingTimes(c: Config, s: Tables, t: Txn)
    requires c.Valid() && CanMeet(c, s, t)
    ensures InCalendar(t.time) && forall x :: x in Payloads(s.rows) ==> InCalendar(x.time)
  {
    hide Reachable, NotStored;
    ReachableIsAccepted(c, s);
    MapIndex(s.rows, PayloadOf());
    forall x | x in Payloads(s.rows)
      ensures InCalendar(x.time)
    {
      var i :| 0 <= i < |s.rows| && Payloads(s.rows)[i] == x;
      assert s.rows[i] in s.rows && AcceptedEvidence(s.rows[i].payload);
    }
  }

  /** Main result: acceleration is never overstated exactly while the long window fits the limit, or both
      windows always hold the same, being one or the short one longer than the calendar; beyond it, up to
      `LARGEST`, a store can come about in which the cut makes it so. */
  lemma AccelerationNeedsTheLongWindow(c: Config, n: nat)
    requires c.Valid() && n <= LARGEST
    ensures NeverOverstated(c, c.engine.longDays, n, AccelerationOf())
            <==> || n <= c.maxHistory || c.engine.shortDays == c.engine.longDays
                 || c.engine.shortDays > CALENDAR_DAYS
  {
    hide Observed, Compute, ScanFeatures, TableInv, NotStored, Acceleration, CanMeet;
    if n > c.maxHistory && c.engine.shortDays != c.engine.longDays && c.engine.shortDays <= CALENDAR_DAYS {
      AccelerationWitness(c, n);
    } else {
      forall s: Tables, t: Txn, now: int
        | CanMeet(c, s, t) && |Observed(c, s, t, t.time - c.engine.longDays * DAY)| == n
        ensures Compute(c, s, t, now).features.velocity.acceleration <= Scanned(c, s, t).velocity.acceleration
      {
        MeetingIsValid(c, s, t);
        AccelerationByCounts(c, s, t, now);
        if n > c.maxHistory {
          if c.engine.shortDays > CALENDAR_DAYS {
            ShortHoldsAll(c, s, t);
          }
          SameWindowsAccelerate(c.engine, c.maxHistory, n);
        } else {
          LongWindowFits(c, s, t, now);
        }
      }
    }
  }
}
