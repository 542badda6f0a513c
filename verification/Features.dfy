/** The deterministic feature computation over a candidate transaction and its observed history. */
module Features {
  import opened Basics
  import opened Sequences
  import opened Baseline

  /** Amounts in ten-thousandths of a currency unit; accepted evidence is positive. */
  type Money = x: int | x > 0 witness 1

  datatype Direction = Inbound | Outbound

  /** Canonical transaction evidence; `time` counts microseconds since 1970 in UTC. */
  datatype Txn = Txn(id: string, account: string, time: int, amount: Money, currency: string, country: string,
                     baseAmount: Option<Money>, baseCurrency: Option<string>,
                     counterparty: Option<string>, direction: Option<Direction>)

  datatype KycLevel = Basic | Standard | Enhanced
  datatype Customer = Customer(id: string, kyc: KycLevel, pep: bool)
  datatype Account = Account(id: string, customerId: string, openedAt: int)

  /** Policy inputs, and log(1 + x), which is never interpreted here. */
  datatype Engine = Engine(longDays: nat, shortDays: nat, baseCurrency: string, thresholds: seq<real>,
                           callForAction: set<string>, increasedMonitoring: set<string>, minHistory: nat,
                           log1p: real -> real)
  {
    predicate Valid() {
      0 < shortDays <= longDays && thresholds != [] && minHistory >= 5
    }

    /** Days of account history any feature looks back on. */
    function WindowDays(): nat {
      MaxInt(longDays, 7)
    }
  }

  const HOUR := 3_600_000_000
  const DAY := 86_400_000_000

  function Units(m: int): real {
    m as real / 10_000.0
  }

  function BaseAmount(e: Engine, t: Txn): Option<real> {
    if t.currency == e.baseCurrency then Some(Units(t.amount))
    else if t.baseCurrency == Some(e.baseCurrency) && t.baseAmount.Some? then Some(Units(t.baseAmount.value))
    else None
  }

  predicate NearBelow(threshold: real, amount: real) {
    threshold * 0.8 <= amount < threshold
  }

  // ---- Predicates on observed transactions ------------------------------------------------

  function Since(start: int): Txn -> bool {
    (t: Txn) => t.time >= start
  }

  function InCurrency(currency: string): Txn -> bool {
    (t: Txn) => t.currency == currency
  }

  function NearThreshold(e: Engine): Txn -> bool {
    (t: Txn) => var a := BaseAmount(e, t);
         a.Some? && exists i | 0 <= i < |e.thresholds| :: NearBelow(e.thresholds[i], a.value)
  }

  function Comparable(t: Txn, start: int): Txn -> bool {
    (x: Txn) => x.currency == t.currency && x.direction == t.direction && x.time >= start
  }

  /** A canonical transfer between two accounts in the hour before `t`. */
  function RecentEdge(t: Txn): Txn -> bool {
    (x: Txn) => && x.direction == Some(Outbound) && x.counterparty.Some? && x.account != x.counterparty.value
         && t.time - HOUR <= x.time < t.time && x.id != t.id
  }

  function PaidTo(account: string): Txn -> bool {
    (x: Txn) => x.counterparty == Some(account)
  }

  function PaidBy(account: string): Txn -> bool {
    (x: Txn) => x.account == account
  }

  function AmountOf(): Txn -> int {
    (x: Txn) => x.amount
  }

  function LogAmount(e: Engine): Txn -> real {
    (x: Txn) => e.log1p(Units(x.amount))
  }

  function Senders(s: seq<Txn>): set<string> {
    set x | x in s :: x.account
  }

  function Recipients(s: seq<Txn>): set<string> {
    set x | x in s && x.counterparty.Some? :: x.counterparty.value
  }

  // ---- Feature groups ---------------------------------------------------------------------

  datatype AmountFeatures = AmountFeatures(
    amount: real, amountLog: real, rounded: real, conversionAvailable: real,
    thresholdExceeded: real, nearThreshold: real)

  function ComputeAmount(e: Engine, t: Txn): AmountFeatures
    requires e.Valid()
  {
    var base := BaseAmount(e, t);
    var primary := e.thresholds[0];
    AmountFeatures(Units(t.amount), e.log1p(Units(t.amount)), Flag(t.amount % (1000 * 10_000) == 0), Flag(base.Some?),
                   Flag(base.Some? && base.value >= primary), Flag(base.Some? && NearBelow(primary, base.value)))
  }

  datatype VelocityFeatures = VelocityFeatures(
    longTotal: real, longCount: nat, longAverage: real, shortTotal: real, shortCount: nat, shortAverage: real,
    score: real, acceleration: real, deviation: real, structuringScore: real, nearThresholdCount: nat,
    sameCurrencyCount: nat)

  function Average(total: real, count: nat): real {
    if count == 0 then 0.0 else total / count as real
  }

  function NearThresholdCount(e: Engine, t: Txn, history: seq<Txn>): nat {
    |Filter([t] + Filter(history, Since(t.time - 7 * DAY)), NearThreshold(e))|
  }

  function ComputeVelocity(e: Engine, t: Txn, history: seq<Txn>): VelocityFeatures
    requires e.Valid()
  {
    var long := Filter(history, Since(t.time - e.longDays * DAY));
    var short := Filter(history, Since(t.time - e.shortDays * DAY));
    var longSame := Filter(long, InCurrency(t.currency));
    var shortSame := Filter(short, InCurrency(t.currency));
    var longTotal := Units(Sum(longSame, AmountOf()));
    var shortTotal := Units(Sum(shortSame, AmountOf()));
    var average := Average(longTotal, |longSame|);
    var longDaily := |long| as real / e.longDays as real;
    var shortDaily := |short| as real / e.shortDays as real;
    var near := NearThresholdCount(e, t, history);
    VelocityFeatures(
      longTotal, |long|, average, shortTotal, |short|, Average(shortTotal, |shortSame|),
      MinReal(longDaily / 2.0, 1.0), MinReal(MaxReal(shortDaily - longDaily, 0.0) / 2.0, 1.0),
      MinReal(if average > 0.0 then Abs(Units(t.amount) - average) / average else 0.0, 5.0),
      MinReal(near as real / 4.0, 1.0), near, |longSame|)
  }

  datatype BehaviorFeatures = BehaviorFeatures(ready: real, sampleCount: nat, robustZ: real, anomalyScore: real)

  function Sample(e: Engine, t: Txn, history: seq<Txn>): seq<Txn> {
    Filter(history, Comparable(t, t.time - e.longDays * DAY))
  }

  function ComputeBehavior(e: Engine, t: Txn, history: seq<Txn>): BehaviorFeatures {
    var logs := Map(Sample(e, t, history), LogAmount(e));
    var ready := |logs| >= e.minHistory;
    var z := UpwardZ(e.log1p(Units(t.amount)), logs);
    BehaviorFeatures(Flag(ready), |logs|, if ready then MinReal(z, 100.0) else 0.0,
                     if ready then MinReal(MaxReal((z - 3.0) / 5.0, 0.0), 1.0) else 0.0)
  }

  datatype NetworkFeatures = NetworkFeatures(
    available: real, fanIn: nat, fanOut: nat, fanOutScore: real, passThrough: real, reciprocal: real)

  predicate HasNetwork(t: Txn) {
    t.direction == Some(Outbound) && t.counterparty.Some? && t.account != t.counterparty.value
  }

  function Incoming(t: Txn, history: seq<Txn>): seq<Txn> {
    Filter(Filter(history, RecentEdge(t)), PaidTo(t.account))
  }

  function Outgoing(t: Txn, history: seq<Txn>): seq<Txn> {
    Filter(Filter(history, RecentEdge(t)), PaidBy(t.account))
  }

  /** The current payment moves on 80% to 120% of what at least three senders brought in. */
  predicate PassesThrough(t: Txn, compatible: seq<Txn>) {
    var total := Sum(compatible, AmountOf());
    |Senders(compatible)| >= 3 && total != 0 && 0.8 <= Units(t.amount) / Units(total) <= 1.2
  }

  predicate Reciprocates(t: Txn, target: string, x: Txn) {
    x.account == target && x.currency == t.currency && 0.8 <= Units(t.amount) / Units(x.amount) <= 1.2
  }

  predicate AnyReciprocates(t: Txn, target: string, incoming: seq<Txn>) {
    exists x | x in incoming :: Reciprocates(t, target, x)
  }

  function ComputeNetwork(t: Txn, history: seq<Txn>): NetworkFeatures {
    if !HasNetwork(t) then NetworkFeatures(0.0, 0, 0, 0.0, 0.0, 0.0)
    else
      var target := t.counterparty.value;
      var incoming := Incoming(t, history);
      var fanOut := |{target} + Recipients(Outgoing(t, history))|;
      NetworkFeatures(
        1.0, |Senders(incoming)|, fanOut, MinReal(MaxReal((fanOut - 3) as real / 7.0, 0.0), 1.0),
        Flag(PassesThrough(t, Filter(incoming, InCurrency(t.currency)))),
        Flag(AnyReciprocates(t, target, incoming)))
  }

  datatype CountryFeatures = CountryFeatures(risk: real, callForAction: real, increasedMonitoring: real, highRisk: real)

  function ComputeCountry(e: Engine, t: Txn): CountryFeatures {
    var call := t.country in e.callForAction;
    var increased := t.country in e.increasedMonitoring;
    CountryFeatures(if call then 0.9 else if increased then 0.6 else 0.2, Flag(call), Flag(increased), Flag(call))
  }

  datatype CustomerFeatures = CustomerFeatures(
    kycAvailable: real, kycGap: real, pepAvailable: real, pepExposure: real, ageScore: real, newAccount: real)

  function KycGap(k: KycLevel): real {
    match k
    case Basic => 0.7
    case Standard => 0.3
    case Enhanced => 0.1
  }

  function ComputeCustomer(t: Txn, customers: map<string, Customer>, accounts: map<string, Account>): CustomerFeatures {
    if t.account !in accounts || accounts[t.account].customerId !in customers then
      CustomerFeatures(0.0, 1.0, 0.0, 0.0, 0.0, 1.0)
    else
      var account := accounts[t.account];
      var customer := customers[account.customerId];
      var age := MaxInt((t.time - account.openedAt) / DAY, 0);
      CustomerFeatures(1.0, KycGap(customer.kyc), 1.0, Flag(customer.pep), MinReal(age as real / 365.0, 1.0),
                       Flag(age < 90))
  }

  datatype TimeFeatures = TimeFeatures(hour: nat, weekend: real, offHours: real)

  function ComputeTime(t: Txn): TimeFeatures {
    var hour := (t.time / HOUR) % 24;
    var weekday := (t.time / DAY + 3) % 7;
    TimeFeatures(hour, Flag(weekday >= 5), Flag(hour < 8 || hour >= 18))
  }

  datatype FeatureSet = FeatureSet(
    amount: AmountFeatures, velocity: VelocityFeatures, behavior: BehaviorFeatures, network: NetworkFeatures,
    country: CountryFeatures, customer: CustomerFeatures, time: TimeFeatures)

  function ComputeFromHistory(e: Engine, t: Txn, history: seq<Txn>, customers: map<string, Customer>,
                              accounts: map<string, Account>, network: seq<Txn>): FeatureSet
    requires e.Valid()
  {
    FeatureSet(ComputeAmount(e, t), ComputeVelocity(e, t, history), ComputeBehavior(e, t, history),
               ComputeNetwork(t, network), ComputeCountry(e, t), ComputeCustomer(t, customers, accounts),
               ComputeTime(t))
  }

  // ---- The reference scan -----------------------------------------------------------------

  function ObservedBefore(e: Engine, t: Txn): Txn -> bool {
    (x: Txn) => x.account == t.account && x.id != t.id && t.time - e.WindowDays() * DAY <= x.time < t.time
  }

  predicate NotLater(a: Txn, b: Txn) {
    a.time <= b.time
  }

  /** Every stored transaction is examined; what is kept is listed oldest first. */
  function HistoricalAccountTransactions(e: Engine, t: Txn, all: seq<Txn>): seq<Txn> {
    Sort(Filter(all, ObservedBefore(e, t)), NotLater)
  }

  function ScanFeatures(e: Engine, t: Txn, all: seq<Txn>, customers: map<string, Customer>,
                        accounts: map<string, Account>): FeatureSet
    requires e.Valid()
  {
    ComputeFromHistory(e, t, HistoricalAccountTransactions(e, t, all), customers, accounts, all)
  }

  // ---- Only the multiset of observed transactions matters ---------------------------------

  lemma VelocityPerm(e: Engine, t: Txn, a: seq<Txn>, b: seq<Txn>)
    requires e.Valid() && multiset(a) == multiset(b)
    ensures ComputeVelocity(e, t, a) == ComputeVelocity(e, t, b)
  {
    hide Filter, Sum;
    WindowPerm(t, a, b, t.time - e.longDays * DAY);
    WindowPerm(t, a, b, t.time - e.shortDays * DAY);
    NearThresholdPerm(e, t, a, b);
  }

  lemma WindowPerm(t: Txn, a: seq<Txn>, b: seq<Txn>, start: int)
    requires multiset(a) == multiset(b)
    ensures var x, y := Filter(a, Since(start)), Filter(b, Since(start));
            && |x| == |y|
            && |Filter(x, InCurrency(t.currency))| == |Filter(y, InCurrency(t.currency))|
            && Sum(Filter(x, InCurrency(t.currency)), AmountOf()) == Sum(Filter(y, InCurrency(t.currency)), AmountOf())
  {
    hide Filter, Sum;
    var x, y := Filter(a, Since(start)), Filter(b, Since(start));
    FilterPerm(a, b, Since(start));
    SizePerm(x, y);
    FilterPerm(x, y, InCurrency(t.currency));
    SizePerm(Filter(x, InCurrency(t.currency)), Filter(y, InCurrency(t.currency)));
    SumPerm(Filter(x, InCurrency(t.currency)), Filter(y, InCurrency(t.currency)), AmountOf());
  }

  lemma NearThresholdPerm(e: Engine, t: Txn, a: seq<Txn>, b: seq<Txn>)
    requires multiset(a) == multiset(b)
    ensures NearThresholdCount(e, t, a) == NearThresholdCount(e, t, b)
  {
    NearThresholdSub(e, t, a, b);
    NearThresholdSub(e, t, b, a);
  }

  lemma NearThresholdSub(e: Engine, t: Txn, a: seq<Txn>, b: seq<Txn>)
    requires multiset(a) <= multiset(b)
    ensures NearThresholdCount(e, t, a) <= NearThresholdCount(e, t, b)
  {
    hide Filter;
    var p := Since(t.time - 7 * DAY);
    FilterSub(a, b, p);
    assert multiset([t] + Filter(a, p)) <= multiset([t] + Filter(b, p));
    FilterSub([t] + Filter(a, p), [t] + Filter(b, p), NearThreshold(e));
    SizeSub(Filter([t] + Filter(a, p), NearThreshold(e)), Filter([t] + Filter(b, p), NearThreshold(e)));
  }

  lemma BehaviorPerm(e: Engine, t: Txn, a: seq<Txn>, b: seq<Txn>)
    requires multiset(a) == multiset(b)
    ensures ComputeBehavior(e, t, a) == ComputeBehavior(e, t, b)
  {
    hide Filter, Map, UpwardZ;
    FilterPerm(a, b, Comparable(t, t.time - e.longDays * DAY));
    MapPerm(Sample(e, t, a), Sample(e, t, b), LogAmount(e));
    SizePerm(Map(Sample(e, t, a), LogAmount(e)), Map(Sample(e, t, b), LogAmount(e)));
    UpwardZPerm(e.log1p(Units(t.amount)), Map(Sample(e, t, a), LogAmount(e)), Map(Sample(e, t, b), LogAmount(e)));
  }

  lemma SendersSub(a: seq<Txn>, b: seq<Txn>)
    requires multiset(a) <= multiset(b)
    ensures Senders(a) <= Senders(b) && Recipients(a) <= Recipients(b)
  {
    forall x | x in a
      ensures x in b
    {
      MemberPerm(a, b, x);
    }
  }

  lemma SendersPerm(a: seq<Txn>, b: seq<Txn>)
    requires multiset(a) == multiset(b)
    ensures Senders(a) == Senders(b) && Recipients(a) == Recipients(b)
  {
    SendersSub(a, b);
    SendersSub(b, a);
  }

  lemma AnyReciprocatesPerm(t: Txn, target: string, a: seq<Txn>, b: seq<Txn>)
    requires multiset(a) == multiset(b)
    ensures AnyReciprocates(t, target, a) == AnyReciprocates(t, target, b)
  {
    hide Reciprocates;
    forall x
      ensures x in a <==> x in b
    {
      assert x in a <==> x in multiset(a);
      assert x in b <==> x in multiset(b);
    }
  }

  /** The network features depend only on the payments into and out of the account. */
  lemma NetworkPerm(t: Txn, a: seq<Txn>, b: seq<Txn>)
    requires multiset(Incoming(t, a)) == multiset(Incoming(t, b))
    requires multiset(Outgoing(t, a)) == multiset(Outgoing(t, b))
    ensures ComputeNetwork(t, a) == ComputeNetwork(t, b)
  {
    hide Incoming, Outgoing, Filter, Sum, Senders, Recipients, AnyReciprocates;
    var ia, ib, p := Incoming(t, a), Incoming(t, b), InCurrency(t.currency);
    SendersPerm(ia, ib);
    SendersPerm(Outgoing(t, a), Outgoing(t, b));
    FilterPerm(ia, ib, p);
    SendersPerm(Filter(ia, p), Filter(ib, p));
    SumPerm(Filter(ia, p), Filter(ib, p), AmountOf());
    if HasNetwork(t) {
      AnyReciprocatesPerm(t, t.counterparty.value, ia, ib);
    }
  }
}
