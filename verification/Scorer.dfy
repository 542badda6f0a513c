/** The deterministic reference scorer: normalisation, weighted ratio, squashing, policy overlays. */
module Scorer {
  import opened Basics

  datatype Name =
    | AmountDeviation | AmountNearReportingThreshold | BehaviorAnomalyScore | CountryRisk | FatfCallForAction
    | FatfIncreasedMonitoring | IsOffHours | IsWeekend | KycGapScore | NearThresholdCount | NetworkFanOutScore
    | NewAccount | PepExposure | RapidPassThroughScore | ReciprocalFlowScore | SanctionsMatch | StructuringScore
    | VelocityAcceleration | VelocityScore
    | HourOfDay | KycDataAvailable | BaseCurrencyConversionAvailable | HistoryTruncated | NetworkHistoryTruncated
    | BehaviorBaselineReady | NetworkDataAvailable | LateEvent
    | Other(name: string)

  const WEIGHTED := 19

  /** The weighted features in the alphabetical order in which they are summed. */
  function WeightedAt(k: int): Name {
    if k == 0 then AmountDeviation
    else if k == 1 then AmountNearReportingThreshold
    else if k == 2 then BehaviorAnomalyScore
    else if k == 3 then CountryRisk
    else if k == 4 then FatfCallForAction
    else if k == 5 then FatfIncreasedMonitoring
    else if k == 6 then IsOffHours
    else if k == 7 then IsWeekend
    else if k == 8 then KycGapScore
    else if k == 9 then NearThresholdCount
    else if k == 10 then NetworkFanOutScore
    else if k == 11 then NewAccount
    else if k == 12 then PepExposure
    else if k == 13 then RapidPassThroughScore
    else if k == 14 then ReciprocalFlowScore
    else if k == 15 then SanctionsMatch
    else if k == 16 then StructuringScore
    else if k == 17 then VelocityAcceleration
    else VelocityScore
  }

  function Weight(n: Name): real {
    match n
    case AmountDeviation => 0.07
    case AmountNearReportingThreshold => 0.08
    case BehaviorAnomalyScore => 0.12
    case CountryRisk => 0.07
    case FatfCallForAction => 0.14
    case FatfIncreasedMonitoring => 0.05
    case IsOffHours => 0.02
    case IsWeekend => 0.02
    case KycGapScore => 0.08
    case NearThresholdCount => 0.05
    case NetworkFanOutScore => 0.08
    case NewAccount => 0.05
    case PepExposure => 0.08
    case RapidPassThroughScore => 0.14
    case ReciprocalFlowScore => 0.10
    case SanctionsMatch => 0.35
    case StructuringScore => 0.22
    case VelocityAcceleration => 0.08
    case VelocityScore => 0.09
    case _ => 0.0
  }

  const QUALITY_FEATURES := {
    StructuringScore, VelocityScore, VelocityAcceleration, AmountDeviation, FatfCallForAction,
    FatfIncreasedMonitoring, CountryRisk, KycGapScore, PepExposure, NewAccount}

  /** What a caller may supply for a feature. */
  datatype RawValue = Num(v: real) | NotFinite | NotNumeric

  datatype Item = Item(name: Name, value: RawValue)

  type Values = map<Name, real>

  // ---- Normalisation ----------------------------------------------------------------------

  function Clip(x: real): real {
    MinReal(MaxReal(x, 0.0), 1.0)
  }

  function Divisor(n: Name): (d: real)
    ensures d > 0.0
  {
    match n
    case AmountDeviation => 5.0
    case NearThresholdCount => 4.0
    case HourOfDay => 23.0
    case _ => 1.0
  }

  function Normal(n: Name, v: real): (r: real)
    ensures 0.0 <= r <= 1.0
  {
    Clip(v / Divisor(n))
  }

  predicate Numeric(items: seq<Item>) {
    forall i :: 0 <= i < |items| ==> items[i].value.Num?
  }

  /** A dictionary lists each name once. */
  ghost predicate IsDictionary(items: seq<Item>) {
    forall i, j :: 0 <= i < j < |items| ==> items[i].name != items[j].name
  }

  /** The supplied values by name. */
  function Supplied(items: seq<Item>): Values
    requires Numeric(items)
  {
    if items == [] then map[]
    else Supplied(items[..|items| - 1])[items[|items| - 1].name := items[|items| - 1].value.v]
  }

  function Normalized(raw: Values): Values {
    map n | n in raw :: Normal(n, raw[n])
  }

  function Get(m: Values, n: Name): real {
    if n in m then m[n] else 0.0
  }

  // ---- Weighted ratio ---------------------------------------------------------------------

  predicate IsWeighted(n: Name) {
    Weight(n) > 0.0
  }

  /** The place of a weighted feature in the listing. */
  function Position(n: Name): int {
    match n
    case AmountDeviation => 0
    case AmountNearReportingThreshold => 1
    case BehaviorAnomalyScore => 2
    case CountryRisk => 3
    case FatfCallForAction => 4
    case FatfIncreasedMonitoring => 5
    case IsOffHours => 6
    case IsWeekend => 7
    case KycGapScore => 8
    case NearThresholdCount => 9
    case NetworkFanOutScore => 10
    case NewAccount => 11
    case PepExposure => 12
    case RapidPassThroughScore => 13
    case ReciprocalFlowScore => 14
    case SanctionsMatch => 15
    case StructuringScore => 16
    case VelocityAcceleration => 17
    case VelocityScore => 18
    case _ => -1
  }

  lemma PositionAt(k: nat)
    requires k < WEIGHTED
    ensures Position(WeightedAt(k)) == k && IsWeighted(WeightedAt(k))
  {
  }

  lemma EntryAt(n: Name)
    requires IsWeighted(n)
    ensures 0 <= Position(n) < WEIGHTED && WeightedAt(Position(n)) == n
  {
  }

  function Scaled(x: real, w: real): real {
    x * w
  }

  lemma ScaledOrder(x: real, y: real, w: real)
    requires x <= y && w >= 0.0
    ensures Scaled(x, w) <= Scaled(y, w)
  {
    if w > 0.0 {
      ProductOrder(x, y, w);
    }
  }

  lemma ScaledEnds(x: real, w: real)
    ensures Scaled(0.0, w) == 0.0 && Scaled(1.0, w) == w && Scaled(x, 0.0) == 0.0
  {
  }

  function Part(n: Name, m: Values): real {
    if n in m then Scaled(m[n], Weight(n)) else 0.0
  }

  function Share(n: Name, m: Values): real {
    if n in m then Weight(n) else 0.0
  }

  /** Sums over the first `k` weighted features, as far as they are supplied. */
  function WeightedSum(k: nat, m: Values): real {
    if k == 0 then 0.0 else WeightedSum(k - 1, m) + Part(WeightedAt(k - 1), m)
  }

  function AvailableWeight(k: nat, m: Values): real {
    if k == 0 then 0.0 else AvailableWeight(k - 1, m) + Share(WeightedAt(k - 1), m)
  }

  /** The ratio of weighted to available weight over the recognised features supplied. */
  function Ratio(raw: Values): real {
    var m := Normalized(raw);
    var available := AvailableWeight(WEIGHTED, m);
    if available > 0.0 then WeightedSum(WEIGHTED, m) / available else 0.0
  }

  predicate UnitValued(m: Values) {
    forall n :: n in m ==> 0.0 <= m[n] <= 1.0
  }

  lemma PartBounds(n: Name, m: Values)
    requires UnitValued(m)
    ensures 0.0 <= Part(n, m) <= Share(n, m)
  {
    hide Weight, Scaled;
    if n in m {
      WeightSign(n);
      ScaledEnds(m[n], Weight(n));
      ScaledOrder(0.0, m[n], Weight(n));
      ScaledOrder(m[n], 1.0, Weight(n));
    }
  }

  lemma {:induction false} SumBounds(k: nat, m: Values)
    requires UnitValued(m)
    ensures 0.0 <= WeightedSum(k, m) <= AvailableWeight(k, m)
  {
    hide Part, Share, WeightedAt;
    if k > 0 {
      PartBounds(WeightedAt(k - 1), m);
      SumBounds(k - 1, m);
    }
  }

  lemma {:induction false} AvailableWhenRecognized(k: nat, m: Values, n: Name)
    requires IsWeighted(n) && n in m && Position(n) < k <= WEIGHTED
    ensures AvailableWeight(k, m) >= Weight(n)
  {
    hide WeightedAt, Position, Weight;
    EntryAt(n);
    if Position(n) == k - 1 {
      AvailableNonNegative(k - 1, m);
    } else {
      AvailableWhenRecognized(k - 1, m, n);
      WeightSign(WeightedAt(k - 1));
    }
  }

  lemma {:induction false} AvailableNonNegative(k: nat, m: Values)
    ensures AvailableWeight(k, m) >= 0.0
  {
    hide WeightedAt, Weight;
    if k > 0 {
      AvailableNonNegative(k - 1, m);
      WeightSign(WeightedAt(k - 1));
    }
  }

  lemma WeightSign(n: Name)
    ensures Weight(n) >= 0.0
  {
  }

  lemma NormalizedIsUnit(raw: Values)
    ensures UnitValued(Normalized(raw))
  {
  }

  lemma RatioBounds(raw: Values)
    ensures 0.0 <= Ratio(raw) <= 1.0
  {
    var m := Normalized(raw);
    NormalizedIsUnit(raw);
    SumBounds(WEIGHTED, m);
    var available := AvailableWeight(WEIGHTED, m);
    if available > 0.0 {
      QuotientBounds(WeightedSum(WEIGHTED, m), available);
    }
  }

  lemma QuotientBounds(a: real, b: real)
    requires 0.0 <= a <= b && b > 0.0
    ensures 0.0 <= a / b <= 1.0
  {
    Quotient(a, b);
    QuotientOrder(a, b, b);
    QuotientUnique(b, b, 1.0);
  }

  /** `b` supplies the same scored features as `a`, none of them lower. */
  ghost predicate Raises(a: Values, b: Values) {
    && (forall n :: IsWeighted(n) ==> (n in a <==> n in b))
    && (forall n :: IsWeighted(n) && n in a && n in b ==> a[n] <= b[n])
  }

  lemma NormalMonotone(n: Name, v: real, w: real)
    requires v <= w
    ensures Normal(n, v) <= Normal(n, w)
  {
    QuotientOrder(v, w, Divisor(n));
  }

  lemma RaisesNormalized(a: Values, b: Values)
    requires Raises(a, b)
    ensures Raises(Normalized(a), Normalized(b))
  {
    hide Weight, Normal;
    forall n | IsWeighted(n) && n in a && n in b
      ensures Normalized(a)[n] <= Normalized(b)[n]
    {
      NormalMonotone(n, a[n], b[n]);
    }
  }

  lemma Unweighted(n: Name)
    requires !IsWeighted(n)
    ensures Weight(n) == 0.0
  {
  }

  lemma PartMonotone(n: Name, a: Values, b: Values)
    requires Raises(a, b)
    ensures Part(n, a) <= Part(n, b) && Share(n, a) == Share(n, b)
  {
    hide Weight, Scaled;
    if !IsWeighted(n) {
      Unweighted(n);
      if n in a {
        ScaledEnds(a[n], 0.0);
      }
      if n in b {
        ScaledEnds(b[n], 0.0);
      }
    } else if n in a {
      ScaledOrder(a[n], b[n], Weight(n));
    }
  }

  lemma {:induction false} SumMonotone(k: nat, a: Values, b: Values)
    requires Raises(a, b)
    ensures WeightedSum(k, a) <= WeightedSum(k, b)
    ensures AvailableWeight(k, a) == AvailableWeight(k, b)
  {
    hide Part, Share, Raises, WeightedAt;
    if k > 0 {
      PartMonotone(WeightedAt(k - 1), a, b);
      SumMonotone(k - 1, a, b);
    }
  }

  lemma RatioMonotone(a: Values, b: Values)
    requires Raises(a, b)
    ensures Ratio(a) <= Ratio(b)
  {
    hide Raises;
    RaisesNormalized(a, b);
    var x, y := Normalized(a), Normalized(b);
    SumMonotone(WEIGHTED, x, y);
    if AvailableWeight(WEIGHTED, x) > 0.0 {
      QuotientOrder(WeightedSum(WEIGHTED, x), WeightedSum(WEIGHTED, y), AvailableWeight(WEIGHTED, x));
    }
  }

  lemma PartWithExtra(k: Name, m: Values, n: Name, v: real)
    requires n !in m
    ensures Part(k, m[n := v]) == Part(k, m) + if k == n then Scaled(v, Weight(n)) else 0.0
    ensures Share(k, m[n := v]) == Share(k, m) + if k == n then Weight(n) else 0.0
  {
    hide Weight, Scaled;
  }

  lemma {:induction false} SumWithExtra(k: nat, m: Values, n: Name, v: real)
    requires n !in m && IsWeighted(n) && k <= WEIGHTED
    ensures WeightedSum(k, m[n := v]) == WeightedSum(k, m) + if Position(n) < k then Scaled(v, Weight(n)) else 0.0
    ensures AvailableWeight(k, m[n := v]) == AvailableWeight(k, m) + if Position(n) < k then Weight(n) else 0.0
  {
    hide Part, Share, WeightedAt, Position, Scaled, Weight;
    EntryAt(n);
    if k > 0 {
      PositionAt(k - 1);
      PartWithExtra(WeightedAt(k - 1), m, n, v);
      SumWithExtra(k - 1, m, n, v);
    }
  }

  lemma {:induction false} SumWithChange(k: nat, m: Values, n: Name, v: real)
    requires n in m && IsWeighted(n) && k <= WEIGHTED
    ensures WeightedSum(k, m[n := v])
            == WeightedSum(k, m) + if Position(n) < k then Scaled(v, Weight(n)) - Scaled(m[n], Weight(n)) else 0.0
    ensures AvailableWeight(k, m[n := v]) == AvailableWeight(k, m)
  {
    hide WeightedAt, Position, Scaled, Weight;
    EntryAt(n);
    if k > 0 {
      PositionAt(k - 1);
      SumWithChange(k - 1, m, n, v);
    }
  }

  /** What one scored feature contributes: raising it moves the ratio by its own weight's share of all that is
      available, no matter where the others stand. */
  lemma OneFeatureMovesRatio(raw: Values, n: Name, v: real)
    requires IsWeighted(n) && n in raw
    ensures var available := AvailableWeight(WEIGHTED, Normalized(raw));
            && available >= Weight(n)
            && (Ratio(raw[n := v]) - Ratio(raw)) * available == Weight(n) * (Normal(n, v) - Normal(n, raw[n]))
  {
    hide Weight, Normal, WeightedSum, AvailableWeight, Position, WeightedAt;
    var m := Normalized(raw);
    var available := AvailableWeight(WEIGHTED, m);
    assert Normalized(raw[n := v]) == m[n := Normal(n, v)];
    EntryAt(n);
    SumWithChange(WEIGHTED, m, n, Normal(n, v));
    AvailableWhenRecognized(WEIGHTED, m, n);
    var before, after := WeightedSum(WEIGHTED, m), WeightedSum(WEIGHTED, m[n := Normal(n, v)]);
    Quotient(before, available);
    Quotient(after, available);
    Distribute(after / available, before / available, available);
  }

  lemma {:induction false} EqualSums(k: nat, m: Values, x: real)
    requires k <= WEIGHTED && forall n :: IsWeighted(n) && n in m ==> m[n] == x
    ensures WeightedSum(k, m) == x * AvailableWeight(k, m)
  {
    hide WeightedAt, Weight, Position;
    if k > 0 {
      PositionAt(k - 1);
      EqualSums(k - 1, m, x);
      Distribute(AvailableWeight(k - 1, m), Share(WeightedAt(k - 1), m), x);
    }
  }

  /** The ratio is a mean: where all scored features stand alike, it stands there too. */
  lemma RatioIsMean(raw: Values, x: real)
    requires exists n :: n in raw && IsWeighted(n)
    requires forall n :: IsWeighted(n) && n in raw ==> Normal(n, raw[n]) == x
    ensures Ratio(raw) == x
  {
    hide Weight, Normal, WeightedSum, AvailableWeight, Position, WeightedAt;
    var m := Normalized(raw);
    var n :| n in raw && IsWeighted(n);
    EntryAt(n);
    AvailableWhenRecognized(WEIGHTED, m, n);
    EqualSums(WEIGHTED, m, x);
    QuotientUnique(WeightedSum(WEIGHTED, m), AvailableWeight(WEIGHTED, m), x);
  }

  /** Which evidence outweighs which, and by how much. */
  lemma WeightsRank()
    ensures Weight(SanctionsMatch) == 0.35 > Weight(StructuringScore) == 0.22 > Weight(FatfCallForAction)
    ensures Weight(FatfCallForAction) == Weight(RapidPassThroughScore) == 0.14 > Weight(BehaviorAnomalyScore)
    ensures Weight(BehaviorAnomalyScore) == 0.12 > Weight(ReciprocalFlowScore) == 0.10 > Weight(VelocityScore)
    ensures Weight(VelocityScore) == 0.09 > Weight(KycGapScore) == Weight(PepExposure) == Weight(NetworkFanOutScore)
            == Weight(VelocityAcceleration) == Weight(AmountNearReportingThreshold) == 0.08 > Weight(CountryRisk)
    ensures Weight(CountryRisk) == Weight(AmountDeviation) == 0.07 > Weight(NewAccount) == Weight(NearThresholdCount)
            == Weight(FatfIncreasedMonitoring) == 0.05 > Weight(IsOffHours) == Weight(IsWeekend) == 0.02
  {
  }

  lemma Dilution(p: real, s: real, v: real, w: real, p': real, s': real)
    requires s > 0.0 && w > 0.0 && p' == p + Scaled(v, w) && s' == s + w
    ensures p' / s' < p / s <==> v < p / s
  {
    var q, r := p / s, p' / s';
    Quotient(p, s);
    Quotient(p', s');
    ProductOrder(r, q, s');
    assert q * s' == p + q * w;
    ProductOrder(v, q, w);
  }

  /**
   * Supplying one more scored feature lowers the ratio exactly when its normalised value is below the
   * ratio without it, so more evidence can mean a lower weighted score: monotonicity needs a fixed set.
   */
  lemma ExtraFeatureDilutes(raw: Values, n: Name, v: real)
    requires IsWeighted(n) && n !in raw
    requires exists k :: k in raw && IsWeighted(k)
    ensures Ratio(raw[n := v]) < Ratio(raw) <==> Normal(n, v) < Ratio(raw)
  {
    hide Weight, Normal, Scaled, WeightedSum, AvailableWeight, Position, WeightedAt;
    var m := Normalized(raw);
    assert Normalized(raw[n := v]) == m[n := Normal(n, v)];
    EntryAt(n);
    SumWithExtra(WEIGHTED, m, n, Normal(n, v));
    var k :| k in raw && IsWeighted(k);
    EntryAt(k);
    AvailableWhenRecognized(WEIGHTED, m, k);
    var m' := Normalized(raw[n := v]);
    Dilution(WeightedSum(WEIGHTED, m), AvailableWeight(WEIGHTED, m), Normal(n, v), Weight(n),
             WeightedSum(WEIGHTED, m'), AvailableWeight(WEIGHTED, m'));
  }

  // ---- Overlays ---------------------------------------------------------------------------

  datatype Rule =
    | IndependentSanctionsScreeningMatch | PotentialStructuringPattern | FatfCallForActionJurisdiction
    | FatfIncreasedMonitoringJurisdiction | PepWithDueDiligenceGap | UnusualAmountForAccount
    | RapidFanInPassThrough | RapidReciprocalTransfer | RapidFanOut | UnusualAmountWithRapidFanOut
    | CustomerDueDiligenceDataMissing | BaseCurrencyConversionMissing | HistoryWasTruncated
    | NetworkHistoryWasTruncated | BehaviorBaselineWarmingUp | NetworkEvidenceUnavailable
    | LateEventObservedHistoryOnly

  /** The indicators a rule stands for. */
  predicate Triggers(r: Rule, m: Values) {
    match r
    case IndependentSanctionsScreeningMatch => Get(m, SanctionsMatch) >= 0.8
    case PotentialStructuringPattern => Get(m, StructuringScore) >= 0.75
    case FatfCallForActionJurisdiction => Get(m, FatfCallForAction) >= 0.5
    case FatfIncreasedMonitoringJurisdiction => Get(m, FatfIncreasedMonitoring) >= 0.5
    case PepWithDueDiligenceGap => Get(m, PepExposure) >= 0.5 && Get(m, KycGapScore) >= 0.5
    case UnusualAmountForAccount => Get(m, BehaviorAnomalyScore) >= 0.8
    case RapidFanInPassThrough => Get(m, RapidPassThroughScore) >= 0.8
    case RapidReciprocalTransfer => Get(m, ReciprocalFlowScore) >= 0.8
    case RapidFanOut => Get(m, NetworkFanOutScore) >= 0.8
    case UnusualAmountWithRapidFanOut => Get(m, NetworkFanOutScore) >= 0.8 && Get(m, BehaviorAnomalyScore) >= 0.8
    case _ => false
  }

  /** The least score a rule guarantees; rules that only inform guarantee none. */
  function Guaranteed(r: Rule): real {
    match r
    case IndependentSanctionsScreeningMatch => 0.98
    case PotentialStructuringPattern => 0.85
    case RapidFanInPassThrough => 0.82
    case UnusualAmountWithRapidFanOut => 0.8
    case PepWithDueDiligenceGap => 0.75
    case RapidReciprocalTransfer => 0.75
    case _ => 0.0
  }

  /** `final` is the least value that is at least `score` and honours every triggered guarantee. */
  ghost predicate IsOverlay(score: real, m: Values, final: real) {
    && final >= score
    && (forall r :: Triggers(r, m) ==> final >= Guaranteed(r))
    && (final == score || exists r :: Triggers(r, m) && final == Guaranteed(r))
  }

  /** The overlay rules in the order they are examined. */
  function Examined(r: Rule): int {
    match r
    case IndependentSanctionsScreeningMatch => 0
    case PotentialStructuringPattern => 1
    case FatfCallForActionJurisdiction => 2
    case FatfIncreasedMonitoringJurisdiction => 3
    case PepWithDueDiligenceGap => 4
    case UnusualAmountForAccount => 5
    case RapidFanInPassThrough => 6
    case RapidReciprocalTransfer => 7
    case RapidFanOut => 8
    case UnusualAmountWithRapidFanOut => 9
    case _ => 10
  }

  /** After `k` rules: `rules` are the triggered ones and `final` the least value honouring them. */
  ghost predicate Progress(k: int, score: real, m: Values, final: real, rules: set<Rule>) {
    && score >= 0.0
    && final >= score
    && (forall r :: r in rules <==> Examined(r) < k && Triggers(r, m))
    && (forall r :: r in rules ==> final >= Guaranteed(r))
    && (final == score || exists r :: r in rules && final == Guaranteed(r))
  }

  lemma ExaminedOnce(q: Rule, r: Rule)
    requires Examined(q) == Examined(r) < 10
    ensures q == r
  {
  }

  lemma Examine(r: Rule, score: real, m: Values, final: real, rules: set<Rule>)
    requires Examined(r) < 10 && Progress(Examined(r), score, m, final, rules)
    ensures Triggers(r, m) ==> Progress(Examined(r) + 1, score, m, MaxReal(final, Guaranteed(r)), rules + {r})
    ensures Triggers(r, m) && Guaranteed(r) == 0.0 ==> Progress(Examined(r) + 1, score, m, final, rules + {r})
    ensures !Triggers(r, m) ==> Progress(Examined(r) + 1, score, m, final, rules)
  {
    hide Triggers, Guaranteed, Examined;
    forall q | Examined(q) == Examined(r)
      ensures q == r
    {
      ExaminedOnce(q, r);
    }
    if Triggers(r, m) {
      if final < Guaranteed(r) {
        assert r in rules + {r};
      } else if final != score {
        var q :| q in rules && final == Guaranteed(q);
        assert q in rules + {r};
      }
    }
  }

  lemma Unexamined(score: real, m: Values)
    requires score >= 0.0
    ensures Progress(0, score, m, score, {})
  {
    hide Triggers, Guaranteed;
  }

  lemma AllExamined(score: real, m: Values, final: real, rules: set<Rule>)
    requires Progress(10, score, m, final, rules)
    ensures IsOverlay(score, m, final)
    ensures forall r :: r in rules <==> Triggers(r, m)
  {
    hide Guaranteed;
    forall r | Triggers(r, m)
      ensures r in rules
    {
    }
  }

  method ApplyPolicyOverlays(score: real, m: Values) returns (final: real, rules: set<Rule>)
    requires score >= 0.0
    ensures IsOverlay(score, m, final)
    ensures forall r :: r in rules <==> Triggers(r, m)
  {
    hide Progress, Get, IsOverlay, MaxReal;
    final, rules := score, {};
    Unexamined(score, m);
    Examine(IndependentSanctionsScreeningMatch, score, m, final, rules);
    if Get(m, SanctionsMatch) >= 0.8 {
      final := MaxReal(final, 0.98);
      rules := rules + {IndependentSanctionsScreeningMatch};
    }
    Examine(PotentialStructuringPattern, score, m, final, rules);
    if Get(m, StructuringScore) >= 0.75 {
      final := MaxReal(final, 0.85);
      rules := rules + {PotentialStructuringPattern};
    }
    Examine(FatfCallForActionJurisdiction, score, m, final, rules);
    if Get(m, FatfCallForAction) >= 0.5 {
      rules := rules + {FatfCallForActionJurisdiction};
    }
    Examine(FatfIncreasedMonitoringJurisdiction, score, m, final, rules);
    if Get(m, FatfIncreasedMonitoring) >= 0.5 {
      rules := rules + {FatfIncreasedMonitoringJurisdiction};
    }
    Examine(PepWithDueDiligenceGap, score, m, final, rules);
    if Get(m, PepExposure) >= 0.5 && Get(m, KycGapScore) >= 0.5 {
      final := MaxReal(final, 0.75);
      rules := rules + {PepWithDueDiligenceGap};
    }
    Examine(UnusualAmountForAccount, score, m, final, rules);
    if Get(m, BehaviorAnomalyScore) >= 0.8 {
      rules := rules + {UnusualAmountForAccount};
    }
    Examine(RapidFanInPassThrough, score, m, final, rules);
    if Get(m, RapidPassThroughScore) >= 0.8 {
      final := MaxReal(final, 0.82);
      rules := rules + {RapidFanInPassThrough};
    }
    Examine(RapidReciprocalTransfer, score, m, final, rules);
    if Get(m, ReciprocalFlowScore) >= 0.8 {
      final := MaxReal(final, 0.75);
      rules := rules + {RapidReciprocalTransfer};
    }
    Examine(RapidFanOut, score, m, final, rules);
    if Get(m, NetworkFanOutScore) >= 0.8 {
      rules := rules + {RapidFanOut};
      Examine(UnusualAmountWithRapidFanOut, score, m, final, rules);
      if Get(m, BehaviorAnomalyScore) >= 0.8 {
        final := MaxReal(final, 0.8);
        rules := rules + {UnusualAmountWithRapidFanOut};
      }
    } else {
      Examine(UnusualAmountWithRapidFanOut, score, m, final, rules);
    }
    AllExamined(score, m, final, rules);
  }

  // ---- The score --------------------------------------------------------------------------

  datatype Thresholds = Thresholds(alert: real, high: real, critical: real) {
    predicate Valid() {
      0.0 <= alert <= high <= critical <= 1.0
    }
  }

  const DEFAULTS := Thresholds(0.7, 0.8, 0.9)

  datatype Category = Low | Medium | High | Critical

  function RiskCategory(t: Thresholds, score: real): Category {
    if score >= t.critical then Critical
    else if score >= t.high then High
    else if score >= t.alert then Medium
    else Low
  }

  /** Rounding to six decimals, ties to even. */
  function Round6(x: real): real {
    var y := x * 1_000_000.0;
    var f := y.Floor;
    var d := y - f as real;
    (if d < 0.5 || (d == 0.5 && f % 2 == 0) then f else f + 1) as real / 1_000_000.0
  }

  /** What is used of 1 - exp(-2.25 x): non-decreasing from 0, and below 0.895 at 1. */
  ghost predicate Squashing(f: real -> real) {
    f(0.0) == 0.0 && f(1.0) <= 0.895 && forall x, y :: 0.0 <= x <= y <= 1.0 ==> f(x) <= f(y)
  }

  /** `score` is what the scorer must answer for the supplied values. */
  ghost predicate IsScore(squash: real -> real, raw: Values, score: real) {
    exists overlaid :: IsOverlay(squash(Ratio(raw)), Normalized(raw), overlaid) && score == Round6(Clip(overlaid))
  }

  predicate FlagIs(raw: Values, n: Name, v: real) {
    n in raw && raw[n] == v
  }

  predicate EvidenceIncomplete(raw: Values) {
    || FlagIs(raw, HistoryTruncated, 1.0) || FlagIs(raw, NetworkHistoryTruncated, 1.0)
    || FlagIs(raw, LateEvent, 1.0) || FlagIs(raw, KycDataAvailable, 0.0)
  }

  /** The evidence warnings, which read the values as supplied. */
  predicate Warns(r: Rule, raw: Values) {
    match r
    case CustomerDueDiligenceDataMissing => FlagIs(raw, KycDataAvailable, 0.0)
    case BaseCurrencyConversionMissing => FlagIs(raw, BaseCurrencyConversionAvailable, 0.0)
    case HistoryWasTruncated => FlagIs(raw, HistoryTruncated, 1.0)
    case NetworkHistoryWasTruncated => FlagIs(raw, NetworkHistoryTruncated, 1.0)
    case BehaviorBaselineWarmingUp => FlagIs(raw, BehaviorBaselineReady, 0.0)
    case NetworkEvidenceUnavailable => FlagIs(raw, NetworkDataAvailable, 0.0)
    case LateEventObservedHistoryOnly => FlagIs(raw, LateEvent, 1.0)
    case _ => false
  }

  /** The share of the ten quality features that were supplied. */
  function Coverage(raw: Values): (c: real)
    ensures 0.0 <= c <= 1.0
    ensures c == 1.0 <==> QUALITY_FEATURES <= raw.Keys
  {
    var covered := raw.Keys * QUALITY_FEATURES;
    SubsetShare(covered, QUALITY_FEATURES);
    assert covered == QUALITY_FEATURES <==> QUALITY_FEATURES <= raw.Keys;
    assert StructuringScore in QUALITY_FEATURES;
    |covered| as real / |QUALITY_FEATURES| as real
  }

  lemma SubsetShare(s: set<Name>, t: set<Name>)
    requires s <= t
    ensures |t| > 0 ==> 0.0 <= |s| as real / |t| as real <= 1.0
    ensures |t| > 0 ==> (|s| as real / |t| as real == 1.0 <==> s == t)
  {
    assert t == s + (t - s);
    assert |t| == |s| + |t - s|;
    if |t| > 0 {
      QuotientBounds(|s| as real, |t| as real);
      Quotient(|s| as real, |t| as real);
    }
  }

  /** Evidence quality: coverage, cut by a quarter without due-diligence data and halved per truncated window. */
  function Quality(raw: Values): (q: real)
    ensures 0.0 <= q <= 1.0
    ensures q == 1.0 <==> QUALITY_FEATURES <= raw.Keys && !FlagIs(raw, KycDataAvailable, 0.0)
                          && !FlagIs(raw, HistoryTruncated, 1.0) && !FlagIs(raw, NetworkHistoryTruncated, 1.0)
  {
    var due := if FlagIs(raw, KycDataAvailable, 0.0) then Coverage(raw) * 0.75 else Coverage(raw);
    var history := if FlagIs(raw, HistoryTruncated, 1.0) then due * 0.5 else due;
    if FlagIs(raw, NetworkHistoryTruncated, 1.0) then history * 0.5 else history
  }

  lemma CoverageOfKeys(a: Values, b: Values)
    requires a.Keys == b.Keys
    ensures Coverage(a) == Coverage(b)
  {
  }

  /** Each penalty takes its own share of what the quality would be without it, and the rest is coverage. */
  lemma PenaltiesMultiply(raw: Values)
    ensures FlagIs(raw, KycDataAvailable, 0.0) ==> 4.0 * Quality(raw) == 3.0 * Quality(raw[KycDataAvailable := 1.0])
    ensures FlagIs(raw, HistoryTruncated, 1.0) ==> 2.0 * Quality(raw) == Quality(raw[HistoryTruncated := 0.0])
    ensures FlagIs(raw, NetworkHistoryTruncated, 1.0)
            ==> 2.0 * Quality(raw) == Quality(raw[NetworkHistoryTruncated := 0.0])
    ensures !FlagIs(raw, KycDataAvailable, 0.0) && !FlagIs(raw, HistoryTruncated, 1.0)
            && !FlagIs(raw, NetworkHistoryTruncated, 1.0)
            ==> Quality(raw) * 10.0 == |raw.Keys * QUALITY_FEATURES| as real
  {
    if KycDataAvailable in raw {
      CoverageOfKeys(raw, raw[KycDataAvailable := 1.0]);
    }
    if HistoryTruncated in raw {
      CoverageOfKeys(raw, raw[HistoryTruncated := 0.0]);
    }
    if NetworkHistoryTruncated in raw {
      CoverageOfKeys(raw, raw[NetworkHistoryTruncated := 0.0]);
    }
    CoverageIs(raw);
    hide Coverage;
  }

  lemma CoverageIs(raw: Values)
    ensures Coverage(raw) * 10.0 == |raw.Keys * QUALITY_FEATURES| as real
  {
    TenQualityFeatures();
    hide QUALITY_FEATURES;
    Quotient(|raw.Keys * QUALITY_FEATURES| as real, 10.0);
  }

  lemma TenQualityFeatures()
    ensures |QUALITY_FEATURES| == 10
  {
  }

  datatype Assessment = Assessment(score: real, category: Category, quality: real, reviewRecommended: bool,
                                   contributions: Values, rules: set<Rule>)

  datatype ScoringError = BadTransactionId | BadFeature | NoRecognizedFeature

  method NormalizeFeatures(items: seq<Item>) returns (r: Result<Values, ScoringError>)
    ensures r.Ok? <==> Numeric(items)
    ensures r.Ok? ==> r.value == Normalized(Supplied(items))
    ensures r.Err? ==> r.error == BadFeature
  {
    hide Normal;
    var m: Values := map[];
    for i := 0 to |items|
      invariant Numeric(items[..i]) && m == Normalized(Supplied(items[..i]))
    {
      if !items[i].value.Num? {
        return Err(BadFeature);
      }
      assert items[..i + 1][..i] == items[..i];
      m := m[items[i].name := Normal(items[i].name, items[i].value.v)];
    }
    assert items[..|items|] == items;
    return Ok(m);
  }

  /** The evidence warnings in the order they are considered. */
  function Considered(r: Rule): int {
    match r
    case CustomerDueDiligenceDataMissing => 0
    case BaseCurrencyConversionMissing => 1
    case HistoryWasTruncated => 2
    case NetworkHistoryWasTruncated => 3
    case BehaviorBaselineWarmingUp => 4
    case NetworkEvidenceUnavailable => 5
    case LateEventObservedHistoryOnly => 6
    case _ => 7
  }

  ghost predicate Noted(k: int, raw: Values, warnings: set<Rule>) {
    forall r :: r in warnings <==> Considered(r) < k && Warns(r, raw)
  }

  lemma ConsideredOnce(q: Rule, r: Rule)
    requires Considered(q) == Considered(r) < 7
    ensures q == r
  {
  }

  lemma Note(r: Rule, raw: Values, warnings: set<Rule>)
    requires Considered(r) < 7 && Noted(Considered(r), raw, warnings)
    ensures Warns(r, raw) ==> Noted(Considered(r) + 1, raw, warnings + {r})
    ensures !Warns(r, raw) ==> Noted(Considered(r) + 1, raw, warnings)
  {
    hide Warns, Considered;
    forall q | Considered(q) == Considered(r)
      ensures q == r
    {
      ConsideredOnce(q, r);
    }
  }

  lemma NothingNoted(raw: Values)
    ensures Noted(0, raw, {})
  {
    hide Warns;
  }

  lemma AllNoted(raw: Values, warnings: set<Rule>)
    requires Noted(7, raw, warnings)
    ensures forall r :: r in warnings <==> Warns(r, raw)
  {
  }

  /** Evidence quality and warnings; neither feeds back into the score. */
  method AssessQuality(raw: Values) returns (quality: real, warnings: set<Rule>, incomplete: bool)
    ensures quality == Quality(raw)
    ensures forall r :: r in warnings <==> Warns(r, raw)
    ensures incomplete <==> EvidenceIncomplete(raw)
  {
    hide FlagIs, Coverage, Noted, EvidenceIncomplete;
    quality, warnings := Coverage(raw), {};
    NothingNoted(raw);
    Note(CustomerDueDiligenceDataMissing, raw, warnings);
    if FlagIs(raw, KycDataAvailable, 0.0) {
      quality := quality * 0.75;
      warnings := warnings + {CustomerDueDiligenceDataMissing};
    }
    Note(BaseCurrencyConversionMissing, raw, warnings);
    if FlagIs(raw, BaseCurrencyConversionAvailable, 0.0) {
      warnings := warnings + {BaseCurrencyConversionMissing};
    }
    var flags, rules := [HistoryTruncated, NetworkHistoryTruncated], [HistoryWasTruncated, NetworkHistoryWasTruncated];
    ghost var before := quality;
    for i := 0 to |flags|
      invariant Noted(2 + i, raw, warnings)
      invariant i == 0 ==> quality == before
      invariant i == 1 ==> quality == if FlagIs(raw, HistoryTruncated, 1.0) then before * 0.5 else before
      invariant i == 2 ==> quality == Quality(raw)
    {
      Note(rules[i], raw, warnings);
      if FlagIs(raw, flags[i], 1.0) {
        quality := quality * 0.5;
        warnings := warnings + {rules[i]};
      }
    }
    Note(BehaviorBaselineWarmingUp, raw, warnings);
    if FlagIs(raw, BehaviorBaselineReady, 0.0) {
      warnings := warnings + {BehaviorBaselineWarmingUp};
    }
    Note(NetworkEvidenceUnavailable, raw, warnings);
    if FlagIs(raw, NetworkDataAvailable, 0.0) {
      warnings := warnings + {NetworkEvidenceUnavailable};
    }
    Note(LateEventObservedHistoryOnly, raw, warnings);
    if FlagIs(raw, LateEvent, 1.0) {
      warnings := warnings + {LateEventObservedHistoryOnly};
    }
    AllNoted(raw, warnings);
    incomplete := EvidenceIncomplete(raw);
  }

  /** Whether the supplied features can be scored at all: numbers only, one of them weighted. */
  ghost predicate Scorable(items: seq<Item>) {
    Numeric(items) && exists n :: n in Supplied(items) && IsWeighted(n)
  }

  /** What the scorer must answer for a well-formed request. */
  ghost predicate IsAssessment(squash: real -> real, t: Thresholds, raw: Values, a: Assessment) {
    && IsScore(squash, raw, a.score)
    && a.category == RiskCategory(t, a.score)
    && a.quality == Round6(Quality(raw))
    && (a.reviewRecommended <==> EvidenceIncomplete(raw) || a.score >= t.alert)
    && (forall r :: r in a.rules <==> Triggers(r, Normalized(raw)) || Warns(r, raw))
    && (forall n :: n in a.contributions <==> n in raw && IsWeighted(n))
    && (forall n :: n in a.contributions ==> a.contributions[n] == Part(n, Normalized(raw)))
  }

  lemma OverlaidIsScore(squash: real -> real, raw: Values, overlaid: real)
    requires IsOverlay(squash(Ratio(raw)), Normalized(raw), overlaid)
    ensures IsScore(squash, raw, Round6(Clip(overlaid)))
  {
    hide IsOverlay, Ratio, Round6;
  }

  method ScoreTransaction(txnId: string, items: seq<Item>, squash: real -> real, t: Thresholds)
    returns (r: Result<Assessment, ScoringError>)
    requires Squashing(squash) && t.Valid()
    ensures r.Ok? <==> 1 <= |txnId| <= 128 && Scorable(items)
    ensures r.Ok? ==> IsAssessment(squash, t, Supplied(items), r.value)
    ensures r.Err? ==> r.error == if !(1 <= |txnId| <= 128) then BadTransactionId
                                  else if !Numeric(items) then BadFeature else NoRecognizedFeature
  {
    hide Weight, Normal, Triggers, Guaranteed, Warns, Quality, Round6, IsOverlay, RiskCategory, EvidenceIncomplete;
    hide WeightedAt, Position, WeightedSum, AvailableWeight, IsScore, FlagIs, UnitValued, Part;
    if txnId == "" || |txnId| > 128 {
      return Err(BadTransactionId);
    }
    var normalization := NormalizeFeatures(items);
    if normalization.Err? {
      return Err(BadFeature);
    }
    var m, raw := normalization.value, Supplied(items);
    var recognized := set n | n in m && IsWeighted(n);
    if recognized == {} {
      assert forall n :: n in raw && IsWeighted(n) ==> n in recognized;
      return Err(NoRecognizedFeature);
    }
    ghost var k :| k in recognized;
    EntryAt(k);
    AvailableWhenRecognized(WEIGHTED, m, k);
    var weighted := map n | n in recognized :: Part(n, m);
    var ratio := WeightedSum(WEIGHTED, m) / AvailableWeight(WEIGHTED, m);
    RatioBounds(raw);
    var overlaid, rules := ApplyPolicyOverlays(squash(ratio), m);
    var score := Round6(Clip(overlaid));
    OverlaidIsScore(squash, raw, overlaid);
    var quality, warnings, incomplete := AssessQuality(raw);
    r := Ok(Assessment(score, RiskCategory(t, score), Round6(quality), incomplete || score >= t.alert, weighted,
                       rules + warnings));
  }

  // ---- Properties of the score ------------------------------------------------------------

  lemma Round6Monotone(x: real, y: real)
    requires x <= y
    ensures Round6(x) <= Round6(y)
  {
    var a, b := x * 1_000_000.0, y * 1_000_000.0;
    assert a <= b;
    assert a.Floor <= b.Floor;
  }

  /** The nearest sixth decimal, the even one where two are as near. */
  lemma RoundsToNearest(x: real)
    ensures exists k: int :: Round6(x) == Sixth(k) && Abs(x * 1_000_000.0 - k as real) <= 0.5
                             && (Abs(x * 1_000_000.0 - k as real) == 0.5 ==> k % 2 == 0)
  {
    var y := x * 1_000_000.0;
    var k := if y - y.Floor as real < 0.5 || (y - y.Floor as real == 0.5 && y.Floor % 2 == 0)
             then y.Floor else y.Floor + 1;
    assert Round6(x) == Sixth(k);
  }

  function Sixth(k: int): real {
    k as real / 1_000_000.0
  }

  lemma Round6Fixes(k: int)
    ensures Round6(k as real / 1_000_000.0) == k as real / 1_000_000.0
  {
    var x := k as real / 1_000_000.0;
    assert x * 1_000_000.0 == k as real;
  }

  lemma GetMonotone(a: Values, b: Values, n: Name)
    requires Raises(a, b) && IsWeighted(n)
    ensures Get(a, n) <= Get(b, n)
  {
    hide Weight;
  }

  lemma TriggersMonotone(a: Values, b: Values, r: Rule)
    requires Raises(a, b) && Triggers(r, a)
    ensures Triggers(r, b)
  {
    hide Raises, Get;
    match r {
      case IndependentSanctionsScreeningMatch => GetMonotone(a, b, SanctionsMatch);
      case PotentialStructuringPattern => GetMonotone(a, b, StructuringScore);
      case FatfCallForActionJurisdiction => GetMonotone(a, b, FatfCallForAction);
      case FatfIncreasedMonitoringJurisdiction => GetMonotone(a, b, FatfIncreasedMonitoring);
      case PepWithDueDiligenceGap =>
        GetMonotone(a, b, PepExposure);
        GetMonotone(a, b, KycGapScore);
      case UnusualAmountForAccount => GetMonotone(a, b, BehaviorAnomalyScore);
      case RapidFanInPassThrough => GetMonotone(a, b, RapidPassThroughScore);
      case RapidReciprocalTransfer => GetMonotone(a, b, ReciprocalFlowScore);
      case RapidFanOut => GetMonotone(a, b, NetworkFanOutScore);
      case UnusualAmountWithRapidFanOut =>
        GetMonotone(a, b, NetworkFanOutScore);
        GetMonotone(a, b, BehaviorAnomalyScore);
      case _ =>
    }
  }

  lemma OverlayMonotone(s: real, a: Values, f: real, s': real, b: Values, f': real)
    requires s <= s' && Raises(a, b)
    requires IsOverlay(s, a, f) && IsOverlay(s', b, f')
    ensures f <= f'
  {
    hide Triggers, Guaranteed, Raises;
    if f != s {
      var r :| Triggers(r, a) && f == Guaranteed(r);
      TriggersMonotone(a, b, r);
    }
  }

  /**
   * Raising any supplied feature, through clipping, weighting, squashing, overlays and rounding, never
   * lowers the score. Features without a weight, among them every evidence-quality flag, are free.
   */
  lemma ScoreMonotone(squash: real -> real, a: Values, b: Values, s: real, s': real)
    requires Squashing(squash) && Raises(a, b)
    requires IsScore(squash, a, s) && IsScore(squash, b, s')
    ensures s <= s'
  {
    hide Raises, IsOverlay, Round6;
    var f :| IsOverlay(squash(Ratio(a)), Normalized(a), f) && s == Round6(Clip(f));
    var f' :| IsOverlay(squash(Ratio(b)), Normalized(b), f') && s' == Round6(Clip(f'));
    RatioBounds(a);
    RatioBounds(b);
    RatioMonotone(a, b);
    RaisesNormalized(a, b);
    OverlayMonotone(squash(Ratio(a)), Normalized(a), f, squash(Ratio(b)), Normalized(b), f');
    Round6Monotone(Clip(f), Clip(f'));
  }

  /** Categories in order of severity. */
  function Severity(g: Category): nat {
    match g
    case Low => 0
    case Medium => 1
    case High => 2
    case Critical => 3
  }

  /** A score is at least as severe as the threshold it reaches, and no more severe than the one it misses. */
  lemma CategoryIsByThreshold(t: Thresholds, score: real)
    requires t.Valid()
    ensures score >= t.alert <==> Severity(RiskCategory(t, score)) >= 1
    ensures score >= t.high <==> Severity(RiskCategory(t, score)) >= 2
    ensures score >= t.critical <==> Severity(RiskCategory(t, score)) >= 3
  {
  }

  /** Main result: raising scored features never makes the assessment less severe, nor withdraws a
      recommendation to review that the score calls for. */
  lemma SeverityMonotone(squash: real -> real, t: Thresholds, raw: Values, raised: Values, a: Assessment, b: Assessment)
    requires Squashing(squash) && t.Valid() && Raises(raw, raised)
    requires IsAssessment(squash, t, raw, a) && IsAssessment(squash, t, raised, b)
    ensures Severity(a.category) <= Severity(b.category)
    ensures Severity(a.category) >= 1 ==> a.reviewRecommended && b.reviewRecommended
  {
    hide Raises, IsScore, Squashing, RiskCategory, Quality, Triggers, Warns, Part, EvidenceIncomplete;
    ScoreMonotone(squash, raw, raised, a.score, b.score);
    CategoryIsByThreshold(t, a.score);
    CategoryIsByThreshold(t, b.score);
  }

  ghost predicate SameScoredFeatures(a: Values, b: Values) {
    forall n :: IsWeighted(n) ==> (n in a <==> n in b) && (n in a && n in b ==> a[n] == b[n])
  }

  /** The scored features alone decide the score: nothing else supplied can move it. */
  lemma ScoreIgnoresTheRest(squash: real -> real, a: Values, b: Values, s: real, s': real)
    requires Squashing(squash) && SameScoredFeatures(a, b)
    requires IsScore(squash, a, s) && IsScore(squash, b, s')
    ensures s == s'
  {
    ScoreMonotone(squash, a, b, s, s');
    ScoreMonotone(squash, b, a, s', s);
  }

  lemma {:induction false} SuppliedAt(items: seq<Item>, i: nat)
    requires Numeric(items) && IsDictionary(items) && i < |items|
    ensures items[i].name in Supplied(items) && Supplied(items)[items[i].name] == items[i].value.v
    decreases |items|
  {
    if i < |items| - 1 {
      var rest := items[..|items| - 1];
      assert rest[i] == items[i];
      SuppliedAt(rest, i);
    }
  }

  lemma {:induction false} SuppliedFrom(items: seq<Item>, n: Name)
    requires Numeric(items)
    ensures n in Supplied(items) ==> exists i :: 0 <= i < |items| && items[i].name == n
    decreases |items|
  {
    if items != [] && n in Supplied(items) && items[|items| - 1].name != n {
      var rest := items[..|items| - 1];
      SuppliedFrom(rest, n);
      var i :| 0 <= i < |rest| && rest[i].name == n;
      assert items[i].name == n;
    }
  }

  lemma SuppliedWithin(a: seq<Item>, b: seq<Item>, n: Name)
    requires Numeric(a) && Numeric(b) && IsDictionary(a) && IsDictionary(b)
    requires multiset(a) == multiset(b) && n in Supplied(a)
    ensures n in Supplied(b) && Supplied(b)[n] == Supplied(a)[n]
  {
    SuppliedFrom(a, n);
    var i :| 0 <= i < |a| && a[i].name == n;
    SuppliedAt(a, i);
    assert a[i] in multiset(b);
    var j :| 0 <= j < |b| && b[j] == a[i];
    SuppliedAt(b, j);
  }

  lemma PermutedItems(a: seq<Item>, b: seq<Item>)
    requires Numeric(a) && IsDictionary(a) && IsDictionary(b) && multiset(a) == multiset(b)
    ensures Numeric(b) && Supplied(a) == Supplied(b)
  {
    forall i | 0 <= i < |b|
      ensures b[i].value.Num?
    {
      assert b[i] in multiset(a);
    }
    forall n | n in Supplied(a)
      ensures n in Supplied(b) && Supplied(b)[n] == Supplied(a)[n]
    {
      SuppliedWithin(a, b, n);
    }
    forall n | n in Supplied(b)
      ensures n in Supplied(a)
    {
      SuppliedWithin(b, a, n);
    }
  }

  /** The supplied values leave the scorer no choice: the whole answer is determined by them. */
  lemma AssessmentIsUnique(squash: real -> real, t: Thresholds, raw: Values, x: Assessment, y: Assessment)
    requires Squashing(squash)
    ensures IsAssessment(squash, t, raw, x) && IsAssessment(squash, t, raw, y) ==> x == y
  {
    hide IsScore, Quality, RiskCategory, EvidenceIncomplete, Triggers, Warns, IsWeighted, Part, Normalized, Round6;
    if IsAssessment(squash, t, raw, x) && IsAssessment(squash, t, raw, y) {
      ScoreIgnoresTheRest(squash, raw, raw, x.score, y.score);
      assert x.rules == y.rules;
      assert x.contributions == y.contributions;
    }
  }

  /** Main result: listing the features of a dictionary in another order neither decides whether it is
      scored nor changes any part of the answer. */
  lemma KeyOrderIsIrrelevant(squash: real -> real, t: Thresholds, a: seq<Item>, b: seq<Item>,
                             x: Assessment, y: Assessment)
    requires Squashing(squash) && IsDictionary(a) && IsDictionary(b) && multiset(a) == multiset(b)
    ensures Scorable(a) <==> Scorable(b)
    ensures (Scorable(a) && IsAssessment(squash, t, Supplied(a), x) && IsAssessment(squash, t, Supplied(b), y))
            ==> x == y
  {
    hide IsAssessment, Supplied, Numeric;
    if Numeric(a) {
      PermutedItems(a, b);
      AssessmentIsUnique(squash, t, Supplied(a), x, y);
    } else if Numeric(b) {
      PermutedItems(b, a);
    }
  }

  /**
   * A score exceeds the squashed ratio only by a documented escalation: it is then exactly what some
   * triggered rule guarantees. It is never below what a triggered rule guarantees, and stays in [0, 1].
   */
  lemma EscalationIsDocumented(squash: real -> real, raw: Values, s: real)
    requires Squashing(squash) && IsScore(squash, raw, s)
    ensures 0.0 <= s <= 1.0
    ensures Round6(squash(Ratio(raw))) <= s
    ensures s == Round6(squash(Ratio(raw))) || exists r :: Triggers(r, Normalized(raw)) && s == Guaranteed(r)
    ensures forall r :: Triggers(r, Normalized(raw)) ==> s >= Guaranteed(r)
  {
    hide Triggers, Guaranteed, Round6;
    var base := squash(Ratio(raw));
    var f :| IsOverlay(base, Normalized(raw), f) && s == Round6(Clip(f));
    RatioBounds(raw);
    forall r: Rule
      ensures 0.0 <= Guaranteed(r) <= 1.0 && Round6(Guaranteed(r)) == Guaranteed(r)
    {
      GuaranteesArePublishable(r);
    }
    assert 0.0 <= base <= 1.0;
    assert 0.0 <= f <= 1.0;
    forall r | Triggers(r, Normalized(raw))
      ensures s >= Guaranteed(r)
    {
      Round6Monotone(Guaranteed(r), f);
    }
    Round6Monotone(base, f);
    Round6Fixes(0);
    Round6Fixes(1_000_000);
    Round6Monotone(0.0, f);
    Round6Monotone(f, 1.0);
  }

  /** The grounds and the amount of every escalation there is. */
  predicate Escalates(m: Values, s: real) {
    || (Get(m, SanctionsMatch) >= 0.8 && s == 0.98)
    || (Get(m, StructuringScore) >= 0.75 && s == 0.85)
    || (Get(m, RapidPassThroughScore) >= 0.8 && s == 0.82)
    || (Get(m, NetworkFanOutScore) >= 0.8 && Get(m, BehaviorAnomalyScore) >= 0.8 && s == 0.8)
    || (Get(m, PepExposure) >= 0.5 && Get(m, KycGapScore) >= 0.5 && s == 0.75)
    || (Get(m, ReciprocalFlowScore) >= 0.8 && s == 0.75)
  }

  lemma GuaranteesEscalate(m: Values, s: real)
    ensures Escalates(m, s) <==> exists r :: Triggers(r, m) && s == Guaranteed(r) && s > 0.0
  {
    hide Get;
    if Escalates(m, s) {
      var r :=
        if Get(m, SanctionsMatch) >= 0.8 && s == 0.98 then IndependentSanctionsScreeningMatch
        else if Get(m, StructuringScore) >= 0.75 && s == 0.85 then PotentialStructuringPattern
        else if Get(m, RapidPassThroughScore) >= 0.8 && s == 0.82 then RapidFanInPassThrough
        else if s == 0.8 then UnusualAmountWithRapidFanOut
        else if Get(m, ReciprocalFlowScore) >= 0.8 then RapidReciprocalTransfer
        else PepWithDueDiligenceGap;
      assert Triggers(r, m) && s == Guaranteed(r);
    }
  }

  /** Main result: the score is the rounded squashed ratio or the highest escalation there are grounds for,
      whichever is more. */
  lemma ScoreIsRatioOrEscalation(squash: real -> real, raw: Values, s: real)
    requires Squashing(squash) && IsScore(squash, raw, s)
    ensures s == Round6(squash(Ratio(raw))) || Escalates(Normalized(raw), s)
    ensures s >= Round6(squash(Ratio(raw))) && forall e :: Escalates(Normalized(raw), e) ==> s >= e
  {
    hide Triggers, Guaranteed, Round6, Escalates, IsScore, Ratio;
    EscalationIsDocumented(squash, raw, s);
    GuaranteesEscalate(Normalized(raw), s);
    if s != Round6(squash(Ratio(raw))) {
      RatioBounds(raw);
      Round6Fixes(0);
      Round6Monotone(0.0, squash(Ratio(raw)));
    }
    forall e | Escalates(Normalized(raw), e)
      ensures s >= e
    {
      GuaranteesEscalate(Normalized(raw), e);
    }
  }

  lemma GuaranteesArePublishable(r: Rule)
    ensures 0.0 <= Guaranteed(r) <= 1.0 && Round6(Guaranteed(r)) == Guaranteed(r)
  {
    hide Round6;
    Round6Fixes((Guaranteed(r) * 1_000_000.0).Floor);
    match r {
      case IndependentSanctionsScreeningMatch => assert Guaranteed(r) == 980_000 as real / 1_000_000.0;
      case PotentialStructuringPattern => assert Guaranteed(r) == 850_000 as real / 1_000_000.0;
      case RapidFanInPassThrough => assert Guaranteed(r) == 820_000 as real / 1_000_000.0;
      case UnusualAmountWithRapidFanOut => assert Guaranteed(r) == 800_000 as real / 1_000_000.0;
      case PepWithDueDiligenceGap => assert Guaranteed(r) == 750_000 as real / 1_000_000.0;
      case RapidReciprocalTransfer => assert Guaranteed(r) == 750_000 as real / 1_000_000.0;
      case _ => assert Guaranteed(r) == 0 as real / 1_000_000.0;
    }
  }

  /** At the default thresholds only an independent screening match makes a transaction critical. */
  lemma CriticalMeansSanctionsMatch(squash: real -> real, raw: Values, s: real)
    requires Squashing(squash) && IsScore(squash, raw, s)
    ensures RiskCategory(DEFAULTS, s) == Critical <==> SanctionsMatch in raw && raw[SanctionsMatch] >= 0.8
  {
    hide Round6, Weight;
    EscalationIsDocumented(squash, raw, s);
    assert Triggers(IndependentSanctionsScreeningMatch, Normalized(raw))
      <==> SanctionsMatch in raw && raw[SanctionsMatch] >= 0.8;
    if !Triggers(IndependentSanctionsScreeningMatch, Normalized(raw)) {
      RatioBounds(raw);
      assert squash(Ratio(raw)) <= 0.895;
      Round6Monotone(squash(Ratio(raw)), 0.895);
      Round6Fixes(895_000);
    }
  }
}
