/** From stored features to scores to alerts: what the stages promise together. */
module EndToEnd {
  import opened Basics
  import opened Sequences
  import opened Baseline
  import opened Features
  import opened Store
  import opened Scorer
  import Meaning
  import Refinement
  import Alerts
  import OrderIndependence
  import ReviewProtocol

  // ---- The feature dictionary a snapshot hands to the scorer ------------------------------

  /** The value of every feature the scorer knows and a snapshot holds. */
  function ValueOf(s: Snapshot, n: Name): real {
    match n
    case AmountNearReportingThreshold => s.features.amount.nearThreshold
    case BaseCurrencyConversionAvailable => s.features.amount.conversionAvailable
    case VelocityScore => s.features.velocity.score
    case VelocityAcceleration => s.features.velocity.acceleration
    case AmountDeviation => s.features.velocity.deviation
    case StructuringScore => s.features.velocity.structuringScore
    case NearThresholdCount => s.features.velocity.nearThresholdCount as real
    case BehaviorBaselineReady => s.features.behavior.ready
    case BehaviorAnomalyScore => s.features.behavior.anomalyScore
    case NetworkDataAvailable => s.features.network.available
    case NetworkFanOutScore => s.features.network.fanOutScore
    case RapidPassThroughScore => s.features.network.passThrough
    case ReciprocalFlowScore => s.features.network.reciprocal
    case CountryRisk => s.features.country.risk
    case FatfCallForAction => s.features.country.callForAction
    case FatfIncreasedMonitoring => s.features.country.increasedMonitoring
    case KycDataAvailable => s.features.customer.kycAvailable
    case KycGapScore => s.features.customer.kycGap
    case PepExposure => s.features.customer.pepExposure
    case NewAccount => s.features.customer.newAccount
    case HourOfDay => s.features.time.hour as real
    case IsWeekend => s.features.time.weekend
    case IsOffHours => s.features.time.offHours
    case HistoryTruncated => Flag(s.historyTruncated)
    case NetworkHistoryTruncated => Flag(s.networkTruncated)
    case LateEvent => Flag(s.lateEvent)
    case _ => 0.0
  }

  const SUPPLIED := {
    AmountNearReportingThreshold, BaseCurrencyConversionAvailable, VelocityScore, VelocityAcceleration,
    AmountDeviation, StructuringScore, NearThresholdCount, BehaviorBaselineReady, BehaviorAnomalyScore,
    NetworkDataAvailable, NetworkFanOutScore, RapidPassThroughScore, ReciprocalFlowScore, CountryRisk,
    FatfCallForAction, FatfIncreasedMonitoring, KycDataAvailable, KycGapScore, PepExposure, NewAccount, HourOfDay,
    IsWeekend, IsOffHours, HistoryTruncated, NetworkHistoryTruncated, LateEvent}

  function FeatureValues(s: Snapshot): Values {
    map n | n in SUPPLIED :: ValueOf(s, n)
  }

  /** Of the weighted features the listing leaves out exactly the one reserved for independent screening. */
  lemma SuppliedNames(n: Name)
    ensures n in SUPPLIED <==> !n.Other? && n != SanctionsMatch
    ensures IsWeighted(n) && n != SanctionsMatch ==> n in SUPPLIED
  {
  }

  // ---- Scores do not depend on the order of arrival ---------------------------------------

  lemma TimelessScoresAlike(x: Snapshot, y: Snapshot)
    requires OrderIndependence.Timeless(x) == OrderIndependence.Timeless(y)
    ensures SameScoredFeatures(FeatureValues(x), FeatureValues(y))
  {
    hide SUPPLIED;
    assert OrderIndependence.Timeless(x).features == OrderIndependence.Timeless(y).features;
    forall n | IsWeighted(n) && n in SUPPLIED
      ensures ValueOf(x, n) == ValueOf(y, n)
    {
    }
  }

  /** Main result: whichever event-time order the same transactions arrive in, each gets the same risk
      score and category; that a later event had already been seen only warns. */
  lemma ScoreIsOrderIndependent(c: Config, s: Tables, a: seq<OrderIndependence.Op>, b: seq<OrderIndependence.Op>,
                                clock: int, x: Row, y: Row, squash: real -> real, t: Thresholds,
                                forX: Assessment, forY: Assessment)
    requires c.Valid() && TableInv(s)
    requires OrderIndependence.Admissible(c, s, a, clock) && OrderIndependence.Admissible(c, s, b, clock)
    requires multiset(OrderIndependence.Submitted(a)) == multiset(OrderIndependence.Submitted(b))
    requires x in OrderIndependence.Added(c, s, a) && y in OrderIndependence.Added(c, s, b) && x.payload == y.payload
    requires Squashing(squash)
    ensures (IsAssessment(squash, t, FeatureValues(x.result), forX)
             && IsAssessment(squash, t, FeatureValues(y.result), forY))
            ==> forX.score == forY.score && forX.category == forY.category
  {
    hide IsScore, FeatureValues, Quality, Triggers, Warns, EvidenceIncomplete;
    OrderIndependence.OrderIndependence(c, s, a, b, clock, x, y);
    TimelessScoresAlike(x.result, y.result);
    var vx, vy := FeatureValues(x.result), FeatureValues(y.result);
    if IsAssessment(squash, t, vx, forX) && IsAssessment(squash, t, vy, forY) {
      ScoreIgnoresTheRest(squash, vx, vy, forX.score, forY.score);
    }
  }

  // ---- Features alone never make a transaction critical -----------------------------------

  /** The dictionary of a snapshot has no screening match, which only a separate integration may add; so
      no snapshot alone is scored critical at the default thresholds. */
  lemma NeverCriticalAlone(squash: real -> real, s: Snapshot, score: real)
    requires Squashing(squash)
    ensures IsScore(squash, FeatureValues(s), score) ==> RiskCategory(DEFAULTS, score) != Critical
  {
    hide IsScore, SUPPLIED, ValueOf;
    if IsScore(squash, FeatureValues(s), score) {
      CriticalMeansSanctionsMatch(squash, FeatureValues(s), score);
      SuppliedNames(SanctionsMatch);
    }
  }

  // ---- Clipping ---------------------------------------------------------------------------

  lemma VelocityInScale(e: Engine, t: Txn, history: seq<Txn>)
    requires e.Valid()
    ensures var v := ComputeVelocity(e, t, history);
            && 0.0 <= v.score <= 1.0 && 0.0 <= v.acceleration <= 1.0 && 0.0 <= v.deviation <= 5.0
            && 0.0 <= v.structuringScore <= 1.0
            && v.structuringScore == MinReal(v.nearThresholdCount as real / 4.0, 1.0)
  {
    hide Filter, Sum, Features.NearThresholdCount;
    var long := Filter(history, Since(t.time - e.longDays * DAY));
    Quotient(|long| as real, e.longDays as real);
    var average := ComputeVelocity(e, t, history).longAverage;
    if average > 0.0 {
      Quotient(Abs(Units(t.amount) - average), average);
    }
  }

  lemma BehaviorInScale(e: Engine, t: Txn, history: seq<Txn>)
    ensures var b := ComputeBehavior(e, t, history); 0.0 <= b.anomalyScore <= 1.0 && b.ready in {0.0, 1.0}
  {
    hide Filter, UpwardZ;
  }

  lemma NetworkInScale(t: Txn, history: seq<Txn>)
    ensures var w := ComputeNetwork(t, history);
            && 0.0 <= w.fanOutScore <= 1.0 && w.passThrough in {0.0, 1.0} && w.reciprocal in {0.0, 1.0}
            && w.available == Flag(HasNetwork(t))
  {
    hide Incoming, Outgoing, PassesThrough, AnyReciprocates;
  }

  lemma LookupsInScale(e: Engine, t: Txn, customers: map<string, Customer>, accounts: map<string, Account>)
    requires e.Valid()
    ensures var o, k, d := ComputeCountry(e, t), ComputeCustomer(t, customers, accounts), ComputeTime(t);
            && 0.0 <= o.risk <= 1.0 && o.callForAction in {0.0, 1.0} && o.increasedMonitoring in {0.0, 1.0}
            && k.kycAvailable in {0.0, 1.0} && 0.0 <= k.kycGap <= 1.0 && k.pepExposure in {0.0, 1.0}
            && k.newAccount in {0.0, 1.0} && d.hour <= 23 && d.weekend in {0.0, 1.0} && d.offHours in {0.0, 1.0}
            && ComputeAmount(e, t).nearThreshold in {0.0, 1.0} && ComputeAmount(e, t).conversionAvailable in {0.0, 1.0}
  {
    hide BaseAmount, NearBelow;
  }

  /** Every score of the engine is in [0, 1], the deviation at most 5 and the hour at most 23. */
  predicate InScale(f: FeatureSet) {
    && f.amount.nearThreshold in {0.0, 1.0} && f.amount.conversionAvailable in {0.0, 1.0}
    && 0.0 <= f.velocity.score <= 1.0 && 0.0 <= f.velocity.acceleration <= 1.0 && 0.0 <= f.velocity.deviation <= 5.0
    && 0.0 <= f.velocity.structuringScore <= 1.0
    && f.velocity.structuringScore == MinReal(f.velocity.nearThresholdCount as real / 4.0, 1.0)
    && f.behavior.ready in {0.0, 1.0} && 0.0 <= f.behavior.anomalyScore <= 1.0
    && 0.0 <= f.network.fanOutScore <= 1.0 && f.network.available in {0.0, 1.0}
    && f.network.passThrough in {0.0, 1.0} && f.network.reciprocal in {0.0, 1.0}
    && 0.0 <= f.country.risk <= 1.0
    && f.country.callForAction in {0.0, 1.0} && f.country.increasedMonitoring in {0.0, 1.0}
    && f.customer.kycAvailable in {0.0, 1.0} && 0.0 <= f.customer.kycGap <= 1.0
    && f.customer.pepExposure in {0.0, 1.0} && f.customer.newAccount in {0.0, 1.0}
    && f.time.hour <= 23 && f.time.weekend in {0.0, 1.0} && f.time.offHours in {0.0, 1.0}
  }

  lemma ComputedInScale(e: Engine, t: Txn, history: seq<Txn>, customers: map<string, Customer>,
                        accounts: map<string, Account>, network: seq<Txn>)
    requires e.Valid()
    ensures InScale(ComputeFromHistory(e, t, history, customers, accounts, network))
  {
    hide ComputeAmount, ComputeVelocity, ComputeBehavior, ComputeNetwork, ComputeCountry, ComputeCustomer, ComputeTime;
    VelocityInScale(e, t, history);
    BehaviorInScale(e, t, history);
    NetworkInScale(t, network);
    LookupsInScale(e, t, customers, accounts);
  }

  lemma ValueInScale(s: Snapshot, n: Name)
    requires InScale(s.features) && n in SUPPLIED && n != NearThresholdCount
    ensures 0.0 <= ValueOf(s, n) <= Divisor(n)
  {
    hide SUPPLIED;
    SuppliedNames(n);
  }

  /** Main result: on features the engine computed, the scorer clips nothing but a near-threshold count
      above four, and that it turns into the structuring score. */
  lemma ClipsOnlyTheCount(c: Config, s: Tables, t: Txn, now: int, n: Name)
    requires c.Valid() && n in SUPPLIED
    ensures var r := Compute(c, s, t, now);
            Normal(n, ValueOf(r, n))
            == if n.NearThresholdCount? then r.features.velocity.structuringScore else ValueOf(r, n) / Divisor(n)
  {
    hide SUPPLIED, ComputeFromHistory, HistoryWindow, NetworkWindows, RelevantAccounts, RelevantCustomers;
    hide ObservedLater, CustomerOf, InScale;
    var r := Compute(c, s, t, now);
    ComputedInScale(c.engine, t, HistoryWindow(c, s.rows, t).0, RelevantCustomers(s, t), RelevantAccounts(s, t),
                    NetworkWindows(c, s.rows, t).0);
    NormalOf(r, n);
  }

  lemma NormalOf(r: Snapshot, n: Name)
    requires InScale(r.features) && n in SUPPLIED
    ensures Normal(n, ValueOf(r, n))
            == if n.NearThresholdCount? then r.features.velocity.structuringScore else ValueOf(r, n) / Divisor(n)
  {
    hide SUPPLIED;
    if !n.NearThresholdCount? {
      hide InScale, ValueOf, Divisor;
      ValueInScale(r, n);
      Scorer.QuotientBounds(ValueOf(r, n), Divisor(n));
    }
  }

  // ---- What makes a rule fire -------------------------------------------------------------

  lemma ReadFeature(c: Config, s: Tables, t: Txn, now: int, n: Name)
    requires c.Valid() && n in SUPPLIED
    ensures var r := Compute(c, s, t, now);
            Get(Normalized(FeatureValues(r)), n)
            == if n.NearThresholdCount? then r.features.velocity.structuringScore else ValueOf(r, n) / Divisor(n)
  {
    hide SUPPLIED, Compute, ValueOf, Normal;
    ClipsOnlyTheCount(c, s, t, now, n);
  }

  lemma Reached(score: real, x: real, lo: real, hi: real, width: real, part: real)
    requires Meaning.RisesFrom(score, x, lo, hi) && width == hi - lo > 0.0 && 0.0 < part < 1.0
    ensures score >= part <==> x >= lo + part * width
  {
    ProductOrder(part, 1.0, width);
    ProductSign(part, width);
    if x <= lo {
      assert score == 0.0 && x < lo + part * width;
    } else if x >= hi {
      assert score == 1.0 && part * width <= width;
    } else {
      ProductOrder(part, score, width);
      assert score * width == x - lo;
    }
  }

  /** The customer on file for the account, if there is one. */
  predicate OnFile(s: Tables, t: Txn) {
    t.account in s.accounts && s.accounts[t.account].customerId in s.customers
  }

  /** What must be so in the evidence for a policy rule to fire on a computed snapshot. */
  predicate Grounds(r: Rule, c: Config, s: Tables, t: Txn, f: FeatureSet, z: real) {
    match r
    case PotentialStructuringPattern => f.velocity.nearThresholdCount >= 3
    case FatfCallForActionJurisdiction => t.country in c.engine.callForAction
    case FatfIncreasedMonitoringJurisdiction => t.country in c.engine.increasedMonitoring
    case PepWithDueDiligenceGap =>
      && OnFile(s, t)
      && var customer := s.customers[s.accounts[t.account].customerId];
         customer.pep && customer.kyc == Basic
    case UnusualAmountForAccount => f.behavior.sampleCount >= c.engine.minHistory && z >= 7.0
    case RapidFanInPassThrough => f.network.passThrough == 1.0
    case RapidReciprocalTransfer => f.network.reciprocal == 1.0
    case RapidFanOut => HasNetwork(t) && f.network.fanOut >= 9
    case UnusualAmountWithRapidFanOut =>
      HasNetwork(t) && f.network.fanOut >= 9 && f.behavior.sampleCount >= c.engine.minHistory && z >= 7.0
    case _ => false
  }

  /** The scores of a computed snapshot against the amounts they are made of. */
  lemma ScoresReached(c: Config, s: Tables, t: Txn, now: int)
    requires c.Valid()
    ensures var f := Compute(c, s, t, now).features;
            && (f.velocity.structuringScore >= 0.75 <==> f.velocity.nearThresholdCount >= 3)
            && (f.network.fanOutScore >= 0.8 <==> HasNetwork(t) && f.network.fanOut >= 9)
            && (f.network.passThrough >= 0.8 <==> f.network.passThrough == 1.0)
            && (f.network.reciprocal >= 0.8 <==> f.network.reciprocal == 1.0)
  {
    hide HistoryWindow, NetworkWindows, ComputeVelocity, ComputeBehavior, ComputeNetwork, ComputeCustomer;
    var (history, _) := HistoryWindow(c, s.rows, t);
    var (network, _) := NetworkWindows(c, s.rows, t);
    Meaning.VelocityScores(c.engine, t, history);
    Meaning.FlowsCount(t, network);
    NetworkInScale(t, network);
    var f := Compute(c, s, t, now).features;
    Reached(f.velocity.structuringScore, f.velocity.nearThresholdCount as real, 0.0, 4.0, 4.0, 0.75);
    if HasNetwork(t) {
      Reached(f.network.fanOutScore, f.network.fanOut as real, 3.0, 10.0, 7.0, 0.8);
    }
  }

  /** The deviation of the candidate from its own account's baseline. */
  function Deviation(c: Config, s: Tables, t: Txn): real {
    UpwardZ(c.engine.log1p(Units(t.amount)),
            Map(Sample(c.engine, t, HistoryWindow(c, s.rows, t).0), LogAmount(c.engine)))
  }

  lemma AnomalyReached(c: Config, s: Tables, t: Txn, now: int)
    requires c.Valid()
    ensures var f := Compute(c, s, t, now).features;
            f.behavior.anomalyScore >= 0.8
            <==> f.behavior.sampleCount >= c.engine.minHistory && Deviation(c, s, t) >= 7.0
  {
    hide HistoryWindow, NetworkWindows, ComputeVelocity, ComputeBehavior, ComputeNetwork, ComputeCustomer;
    hide UpwardZ, Map, Sample;
    Meaning.AnomalyScores(c.engine, t, HistoryWindow(c, s.rows, t).0);
    var b := Compute(c, s, t, now).features.behavior;
    if b.sampleCount >= c.engine.minHistory {
      Reached(b.anomalyScore, Deviation(c, s, t), 3.0, 8.0, 5.0, 0.8);
    }
  }

  lemma LookupsReached(c: Config, s: Tables, t: Txn, now: int)
    requires c.Valid() && TableInv(s)
    ensures var f := Compute(c, s, t, now).features;
            && (f.country.callForAction >= 0.5 <==> t.country in c.engine.callForAction)
            && (f.country.increasedMonitoring >= 0.5 <==> t.country in c.engine.increasedMonitoring)
            && (f.customer.pepExposure >= 0.5 && f.customer.kycGap >= 0.5
                <==> OnFile(s, t) && var customer := s.customers[s.accounts[t.account].customerId];
                     customer.pep && customer.kyc == Basic)
  {
    hide TableInv, HistoryWindow, NetworkWindows, ComputeVelocity, ComputeBehavior, ComputeNetwork;
    Refinement.CustomerRefines(s, t);
  }

  /** Main result: which evidence makes which policy rule fire. */
  lemma RulesHaveGrounds(c: Config, s: Tables, t: Txn, now: int, r: Rule)
    requires c.Valid() && TableInv(s)
    ensures var snapshot := Compute(c, s, t, now);
            Triggers(r, Normalized(FeatureValues(snapshot)))
            <==> Grounds(r, c, s, t, snapshot.features, Deviation(c, s, t))
  {
    hide SUPPLIED, TableInv, Compute, Deviation, Normalized, FeatureValues, Get, HasNetwork;
    ScoresReached(c, s, t, now);
    AnomalyReached(c, s, t, now);
    LookupsReached(c, s, t, now);
    NoMatch(Compute(c, s, t, now));
    Supply();
    ReadFeature(c, s, t, now, StructuringScore);
    ReadFeature(c, s, t, now, FatfCallForAction);
    ReadFeature(c, s, t, now, FatfIncreasedMonitoring);
    ReadFeature(c, s, t, now, PepExposure);
    ReadFeature(c, s, t, now, KycGapScore);
    ReadFeature(c, s, t, now, BehaviorAnomalyScore);
    ReadFeature(c, s, t, now, RapidPassThroughScore);
    ReadFeature(c, s, t, now, ReciprocalFlowScore);
    ReadFeature(c, s, t, now, NetworkFanOutScore);
  }

  lemma DeviationIsCapped(e: Engine, t: Txn, history: seq<Txn>)
    requires e.Valid()
    ensures var v := ComputeVelocity(e, t, history);
            v.deviation == 5.0 <==> v.longAverage > 0.0 && Abs(Units(t.amount) - v.longAverage) >= 5.0 * v.longAverage
  {
    hide ComputeVelocity, Units, Abs, MinReal, Meaning.RisesFrom, Meaning.CountInShort;
    var v := ComputeVelocity(e, t, history);
    Meaning.VelocityScores(e, t, history);
    AverageSign(e, t, history);
    VelocityInScale(e, t, history);
    if v.longAverage > 0.0 {
      CapReached(v.deviation, v.longAverage, Abs(Units(t.amount) - v.longAverage));
    }
  }

  /** The amount deviation counts in full from five averages on. */
  lemma FullDeviation(c: Config, s: Tables, t: Txn, now: int)
    requires c.Valid()
    ensures var v := Compute(c, s, t, now).features.velocity;
            Get(Normalized(FeatureValues(Compute(c, s, t, now))), AmountDeviation) == 1.0
            <==> v.longAverage > 0.0 && Abs(Units(t.amount) - v.longAverage) >= 5.0 * v.longAverage
  {
    hide SUPPLIED, Normalized, FeatureValues, Get, HistoryWindow, NetworkWindows, Units, Abs, Divisor;
    hide ComputeVelocity, ComputeBehavior, ComputeNetwork, ComputeCustomer, ComputeAmount;
    SuppliedNames(AmountDeviation);
    ReadFeature(c, s, t, now, AmountDeviation);
    DeviationIsCapped(c.engine, t, HistoryWindow(c, s.rows, t).0);
    FifthIsOne(Compute(c, s, t, now).features.velocity.deviation);
  }

  lemma AverageSign(e: Engine, t: Txn, history: seq<Txn>)
    requires e.Valid()
    ensures ComputeVelocity(e, t, history).longAverage >= 0.0
  {
    hide Filter, Sum, Features.NearThresholdCount;
    var same := Filter(Filter(history, Since(t.time - e.longDays * DAY)), InCurrency(t.currency));
    SumNonNegative(same, AmountOf());
    if |same| > 0 {
      Quotient(Units(Sum(same, AmountOf())), |same| as real);
    }
  }

  lemma FifthIsOne(deviation: real)
    ensures deviation / Divisor(AmountDeviation) == 1.0 <==> deviation == 5.0
  {
  }

  lemma CapReached(deviation: real, average: real, distance: real)
    requires average > 0.0 && deviation * average == MinReal(distance, 5.0 * average) && deviation <= 5.0
    ensures deviation == 5.0 <==> distance >= 5.0 * average
  {
    ProductOrder(deviation, 5.0, average);
  }

  lemma Supply()
    ensures {StructuringScore, FatfCallForAction, FatfIncreasedMonitoring, PepExposure, KycGapScore,
             BehaviorAnomalyScore, RapidPassThroughScore, ReciprocalFlowScore, NetworkFanOutScore} <= SUPPLIED
  {
  }

  lemma NoMatch(s: Snapshot)
    ensures Get(Normalized(FeatureValues(s)), SanctionsMatch) == 0.0
  {
  }

  // ---- Incomplete evidence reaches a person -----------------------------------------------

  lemma WarnedFlags(s: Snapshot)
    ensures FlagIs(FeatureValues(s), HistoryTruncated, 1.0) <==> s.historyTruncated
    ensures FlagIs(FeatureValues(s), NetworkHistoryTruncated, 1.0) <==> s.networkTruncated
    ensures FlagIs(FeatureValues(s), LateEvent, 1.0) <==> s.lateEvent
    ensures FlagIs(FeatureValues(s), KycDataAvailable, 0.0) <==> s.features.customer.kycAvailable == 0.0
  {
    hide SUPPLIED;
    SuppliedNames(HistoryTruncated);
    SuppliedNames(NetworkHistoryTruncated);
    SuppliedNames(LateEvent);
    SuppliedNames(KycDataAvailable);
  }

  lemma KnownCustomer(c: Config, s: Tables, t: Txn, now: int)
    requires c.Valid() && TableInv(s)
    ensures Compute(c, s, t, now).features.customer.kycAvailable == 0.0
            <==> t.account !in s.accounts || s.accounts[t.account].customerId !in s.customers
  {
    hide TableInv, HistoryWindow, NetworkWindows, ComputeVelocity, ComputeBehavior, ComputeNetwork;
    Refinement.CustomerRefines(s, t);
  }

  lemma ReviewIsNeeded(c: Config, s: Tables, t: Txn, now: int, squash: real -> real, h: Thresholds,
                       a: Assessment, p: ReviewProtocol.Config, m: ReviewProtocol.Scored)
    requires c.Valid() && TableInv(s)
    requires m.risk == a.score && m.reviewRecommended == a.reviewRecommended
    ensures IsAssessment(squash, h, FeatureValues(Compute(c, s, t, now)), a) ==>
              (ReviewProtocol.NeedsAlert(p, m)
               <==> Incomplete(c, s, t, now) || a.score >= MinReal(h.alert, p.alertThreshold))
  {
    hide Compute, TableInv, FeatureValues, FlagIs, IsScore, Quality, Triggers, Warns, RiskCategory;
    WarnedFlags(Compute(c, s, t, now));
    KnownCustomer(c, s, t, now);
  }

  /** A window was cut off, a later event had been seen, or the customer is unknown. */
  predicate Incomplete(c: Config, s: Tables, t: Txn, now: int)
    requires c.Valid()
  {
    var r := Compute(c, s, t, now);
    || r.historyTruncated || r.networkTruncated || r.lateEvent
    || t.account !in s.accounts || s.accounts[t.account].customerId !in s.customers
  }

  /** Main result: once a scored snapshot is delivered to an idle worker and that worker has taken its next
      step, with nobody else moving, an alert is stored for the transaction exactly if there was one, its
      evidence is incomplete, or its score reaches one of the two alert thresholds. So no configuration
      of thresholds lets incomplete evidence pass unreviewed, and whatever others do in between, it
      does not. */
  lemma IncompleteEvidenceIsReviewed(c: Config, s: Tables, t: Txn, now: int, squash: real -> real, h: Thresholds,
                                     a: Assessment, p: ReviewProtocol.Config, system: ReviewProtocol.System,
                                     w: nat, m: ReviewProtocol.Scored, id: string, at: real,
                                     meanwhile: seq<ReviewProtocol.Event>, step: ReviewProtocol.Event)
    requires c.Valid() && TableInv(s) && Squashing(squash)
    requires m.txn == t.id && m.risk == a.score && m.reviewRecommended == a.reviewRecommended
    requires ReviewProtocol.Inv(p, system) && w !in system.tasks && ReviewProtocol.FreshId(system, id)
    requires (forall e :: e in meanwhile ==> ReviewProtocol.LeavesAlone(e, w)) && step.Advance? && step.worker == w
    ensures var taken := ReviewProtocol.Step(p, system, ReviewProtocol.Deliver(w, m, id, at));
            var n := ReviewProtocol.Step(p, ReviewProtocol.Run(p, taken, meanwhile), step);
            IsAssessment(squash, h, FeatureValues(Compute(c, s, t, now)), a) ==>
              && (Incomplete(c, s, t, now) ==> t.id in n.db.byTxn)
              && (meanwhile == [] ==>
                    (t.id in n.db.byTxn
                     <==> || t.id in system.db.byTxn || Incomplete(c, s, t, now)
                          || a.score >= MinReal(h.alert, p.alertThreshold)))
  {
    hide Compute, TableInv, FeatureValues, IsScore, Quality, Triggers, Warns, RiskCategory, EvidenceIncomplete;
    hide Incomplete, ReviewProtocol.Inv, ReviewProtocol.Step, ReviewProtocol.Run, ReviewProtocol.NeedsAlert;
    var values := FeatureValues(Compute(c, s, t, now));
    if IsAssessment(squash, h, values, a) {
      EscalationIsDocumented(squash, values, a.score);
      ReviewIsNeeded(c, s, t, now, squash, h, a, p, m);
      ReviewProtocol.DeliveryIsStored(p, system, w, m, id, at, meanwhile, step);
    }
  }

  // ---- What an alert is called ------------------------------------------------------------

  /** The name under which a rule travels with a scored transaction. */
  function RuleName(r: Rule): string {
    match r
    case IndependentSanctionsScreeningMatch => "independent_sanctions_screening_match"
    case PotentialStructuringPattern => "potential_structuring_pattern"
    case FatfCallForActionJurisdiction => "fatf_call_for_action_jurisdiction"
    case FatfIncreasedMonitoringJurisdiction => "fatf_increased_monitoring_jurisdiction"
    case PepWithDueDiligenceGap => "pep_with_due_diligence_gap"
    case UnusualAmountForAccount => "unusual_amount_for_account"
    case RapidFanInPassThrough => "rapid_fan_in_pass_through"
    case RapidReciprocalTransfer => "rapid_reciprocal_transfer"
    case RapidFanOut => "rapid_fan_out"
    case UnusualAmountWithRapidFanOut => "unusual_amount_with_rapid_fan_out"
    case CustomerDueDiligenceDataMissing => "customer_due_diligence_data_missing"
    case BaseCurrencyConversionMissing => "base_currency_conversion_missing"
    case HistoryWasTruncated => "history_truncated"
    case NetworkHistoryWasTruncated => "network_history_truncated"
    case BehaviorBaselineWarmingUp => "behavior_baseline_warming_up"
    case NetworkEvidenceUnavailable => "network_evidence_unavailable"
    case LateEventObservedHistoryOnly => "late_event_observed_history_only"
  }

  const MATCH_NAME := "independent_sanctions_screening_match"

  lemma OnlyTheMatchIsNamedSo(r: Rule)
    ensures RuleName(r) == MATCH_NAME <==> r == IndependentSanctionsScreeningMatch
  {
    assert r != IndependentSanctionsScreeningMatch ==> |RuleName(r)| != |MATCH_NAME|;
  }

  /** At the default thresholds a critical score is exactly what the screening match guarantees. */
  lemma CriticalScore(squash: real -> real, raw: Values, score: real)
    requires Squashing(squash)
    ensures IsScore(squash, raw, score) && RiskCategory(DEFAULTS, score) == Critical ==> score == 0.98
  {
    hide IsScore, Round6, Triggers, Ratio;
    if IsScore(squash, raw, score) {
      EscalationIsDocumented(squash, raw, score);
      RatioBounds(raw);
      Round6Monotone(squash(Ratio(raw)), 0.895);
      Round6Fixes(895_000);
    }
  }

  lemma MatchInEvidence(squash: real -> real, raw: Values, a: Assessment, evidence: Alerts.Evidence)
    requires Squashing(squash) && evidence.rules == set r | r in a.rules :: RuleName(r)
    ensures IsAssessment(squash, DEFAULTS, raw, a) ==>
              (ReviewProtocol.DetermineAlertType(evidence) == "sanctions_screening_match" <==> a.category == Critical)
  {
    hide RuleName, IsScore, Quality, EvidenceIncomplete, Get, Weight, Part;
    if IsAssessment(squash, DEFAULTS, raw, a) {
      CriticalMeansSanctionsMatch(squash, raw, a.score);
      NamedInEvidence(a.rules, evidence);
      TriggeredByMatch(raw);
      TypeNamesTheMatch(evidence);
    }
  }

  lemma TypeOfNewAlert(p: ReviewProtocol.Config, m: ReviewProtocol.Scored, id: string, at: real)
    ensures ReviewProtocol.NewAlert(p, m, id, at).facts.alertType == "sanctions_screening_match"
            <==> && ReviewProtocol.DetermineAlertType(m.evidence) == "sanctions_screening_match"
                 && m.risk >= p.alertThreshold
  {
    hide ReviewProtocol.DetermineAlertType;
    assert |"data_quality_review"| != |"sanctions_screening_match"|;
  }

  /** Main result: scored at the default thresholds, the alert created for a transaction is called a
      sanctions screening match exactly when the transaction is critical and the manager's own alert
      threshold is at most 0.98, as the default 0.7 is; above it even a critical transaction is filed as
      a data-quality review. */
  lemma CriticalAlertsNameTheMatch(squash: real -> real, raw: Values, a: Assessment, p: ReviewProtocol.Config,
                                   m: ReviewProtocol.Scored, id: string, at: real)
    requires Squashing(squash) && m.risk == a.score
    requires m.evidence.rules == set r | r in a.rules :: RuleName(r)
    ensures var facts := ReviewProtocol.NewAlert(p, m, id, at).facts;
            IsAssessment(squash, DEFAULTS, raw, a) ==>
              && (facts.alertType == "sanctions_screening_match"
                  <==> a.category == Critical && p.alertThreshold <= 0.98)
              && (a.category == Critical && p.alertThreshold > 0.98 ==> facts.alertType == "data_quality_review")
  {
    hide RuleName, IsScore, Quality, EvidenceIncomplete, Triggers, Warns, Part, ReviewProtocol.DetermineAlertType;
    if IsAssessment(squash, DEFAULTS, raw, a) {
      MatchInEvidence(squash, raw, a, m.evidence);
      CriticalScore(squash, raw, a.score);
      TypeOfNewAlert(p, m, id, at);
    }
  }

  lemma NamedInEvidence(rules: set<Rule>, evidence: Alerts.Evidence)
    requires evidence.rules == set r | r in rules :: RuleName(r)
    ensures MATCH_NAME in evidence.rules <==> IndependentSanctionsScreeningMatch in rules
  {
    hide RuleName;
    forall r
      ensures RuleName(r) == MATCH_NAME <==> r == IndependentSanctionsScreeningMatch
    {
      OnlyTheMatchIsNamedSo(r);
    }
  }

  lemma TriggeredByMatch(raw: Values)
    ensures Triggers(IndependentSanctionsScreeningMatch, Normalized(raw))
            || Warns(IndependentSanctionsScreeningMatch, raw)
            <==> SanctionsMatch in raw && raw[SanctionsMatch] >= 0.8
  {
  }

  lemma TypeNamesTheMatch(e: Alerts.Evidence)
    ensures ReviewProtocol.DetermineAlertType(e) == "sanctions_screening_match" <==> MATCH_NAME in e.rules
  {
    var name := ReviewProtocol.DetermineAlertType(e);
    assert MATCH_NAME !in e.rules ==> |name| != |"sanctions_screening_match"| || name[0] != 's';
  }

  // ---- Every alert type -------------------------------------------------------------------

  function NameLength(r: Rule): nat {
    match r
    case IndependentSanctionsScreeningMatch => 37
    case PotentialStructuringPattern => 29
    case FatfCallForActionJurisdiction => 33
    case FatfIncreasedMonitoringJurisdiction => 38
    case PepWithDueDiligenceGap => 26
    case UnusualAmountForAccount => 26
    case RapidFanInPassThrough => 25
    case RapidReciprocalTransfer => 25
    case RapidFanOut => 13
    case UnusualAmountWithRapidFanOut => 33
    case CustomerDueDiligenceDataMissing => 35
    case BaseCurrencyConversionMissing => 32
    case HistoryWasTruncated => 17
    case NetworkHistoryWasTruncated => 25
    case BehaviorBaselineWarmingUp => 28
    case NetworkEvidenceUnavailable => 28
    case LateEventObservedHistoryOnly => 32
  }

  lemma NameHasLength(r: Rule)
    ensures |RuleName(r)| == NameLength(r)
  {
  }

  /** Names of the same length differ in their first or seventh letter. */
  lemma SameLengthNames()
    ensures RuleName(FatfCallForActionJurisdiction)[0] != RuleName(UnusualAmountWithRapidFanOut)[0]
    ensures RuleName(UnusualAmountForAccount)[0] != RuleName(PepWithDueDiligenceGap)[0]
    ensures RuleName(NetworkHistoryWasTruncated)[0] != RuleName(RapidFanInPassThrough)[0]
    ensures RuleName(NetworkHistoryWasTruncated)[0] != RuleName(RapidReciprocalTransfer)[0]
    ensures RuleName(RapidFanInPassThrough)[6] != RuleName(RapidReciprocalTransfer)[6]
  {
  }

  /** The rules an alert can be named after. */
  const NAMING := {
    PotentialStructuringPattern, PepWithDueDiligenceGap, RapidFanInPassThrough, RapidReciprocalTransfer,
    UnusualAmountWithRapidFanOut, IndependentSanctionsScreeningMatch}

  lemma NamedOnce(r: Rule, q: Rule)
    requires q in NAMING
    ensures RuleName(r) == RuleName(q) <==> r == q
  {
    hide RuleName;
    NameHasLength(r);
    NameHasLength(q);
    SameLengthNames();
  }

  lemma NamedAmong(rules: set<Rule>, names: set<string>, q: Rule)
    requires names == set r | r in rules :: RuleName(r)
    requires q in NAMING
    ensures RuleName(q) in names <==> q in rules
  {
    hide RuleName, NAMING;
    forall r
      ensures RuleName(r) == RuleName(q) <==> r == q
    {
      NamedOnce(r, q);
    }
  }

  datatype Concern = Screening | Structuring | Diligence | Flow | Behavior | Velocity | HighRisk

  /** What an alert is about: the first concern on this list there are grounds for. */
  function ConcernOf(rules: set<Rule>, velocity: real): Concern {
    if IndependentSanctionsScreeningMatch in rules then Screening
    else if PotentialStructuringPattern in rules then Structuring
    else if PepWithDueDiligenceGap in rules then Diligence
    else if RapidFanInPassThrough in rules || RapidReciprocalTransfer in rules then Flow
    else if UnusualAmountWithRapidFanOut in rules then Behavior
    else if velocity > 0.05 then Velocity
    else HighRisk
  }

  function ConcernName(k: Concern): string {
    match k
    case Screening => "sanctions_screening_match"
    case Structuring => "potential_structuring"
    case Diligence => "enhanced_due_diligence"
    case Flow => "network_flow_review"
    case Behavior => "behavioral_network_review"
    case Velocity => "velocity_anomaly"
    case HighRisk => "high_risk_transaction"
  }

  /** Main result: the type of an alert names the first concern its rules give grounds for, and no other. */
  lemma AlertTypeNamesConcern(rules: set<Rule>, e: Alerts.Evidence, k: Concern)
    requires e.rules == set r | r in rules :: RuleName(r)
    ensures ReviewProtocol.DetermineAlertType(e) == ConcernName(k) <==> ConcernOf(rules, e.velocity) == k
  {
    NamedAmong(rules, e.rules, IndependentSanctionsScreeningMatch);
    NamedAmong(rules, e.rules, PotentialStructuringPattern);
    NamedAmong(rules, e.rules, PepWithDueDiligenceGap);
    NamedAmong(rules, e.rules, RapidFanInPassThrough);
    NamedAmong(rules, e.rules, RapidReciprocalTransfer);
    NamedAmong(rules, e.rules, UnusualAmountWithRapidFanOut);
    assert ReviewProtocol.DetermineAlertType(e) == ConcernName(ConcernOf(rules, e.velocity));
    ConcernsDiffer(k, ConcernOf(rules, e.velocity));
  }

  lemma ConcernsDiffer(j: Concern, k: Concern)
    ensures ConcernName(j) == ConcernName(k) <==> j == k
  {
    assert j != k ==> |ConcernName(j)| != |ConcernName(k)| || ConcernName(j)[0] != ConcernName(k)[0];
  }
}
