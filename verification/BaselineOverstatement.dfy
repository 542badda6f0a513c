/** The baseline under truncation: exactly for which sizes of the history its scores can be overstated. */
module BaselineOverstatement {
  import opened Basics
  import opened Sequences
  import opened Baseline
  import opened Features
  import opened Store
  import opened Windows
  import opened Refinement
  import opened Truncation
  import opened Identifiers
  import opened Acceptance
  import opened Overstatement

  // ---- Samples with two values ------------------------------------------------------------

  function Repeat(a: real, k: nat): (s: seq<real>)
    ensures |s| == k && forall i :: 0 <= i < k ==> s[i] == a
  {
    if k == 0 then [] else [a] + Repeat(a, k - 1)
  }

  /** The middle of `k` values `a` followed by `m` values `b`. */
  function Middle(a: real, k: nat, b: real, m: nat): real {
    if k > m then a else if k < m then b else (a + b) / 2.0
  }

  lemma MedianOfTwo(a: real, k: nat, b: real, m: nat)
    requires a <= b && k + m > 0
    ensures Median(Repeat(a, k) + Repeat(b, m)) == Middle(a, k, b, m)
  {
    var s := Repeat(a, k) + Repeat(b, m);
    hide Sort, Repeat;
    AtMostOrders();
    SortSorts(s, AtMost);
    SortedUnique(Sort(s, AtMost), s, AtMost);
  }

  lemma {:induction false} RepeatMap(a: real, k: nat, f: real -> real)
    ensures Map(Repeat(a, k), f) == Repeat(f(a), k)
  {
    if k > 0 {
      RepeatMap(a, k - 1, f);
      assert Repeat(a, k)[1..] == Repeat(a, k - 1);
    }
  }

  /** Two close values are within half their distance of the middle, as far as the deviation goes. */
  lemma MadOfTwo(a: real, k: nat, b: real, m: nat)
    requires a <= b && k + m > 0
    ensures var s := Repeat(a, k) + Repeat(b, m);
            Center(s) == Middle(a, k, b, m) && 0.0 <= Mad(s) <= (b - a) / 2.0
  {
    hide Median, Repeat, Map;
    var s := Repeat(a, k) + Repeat(b, m);
    MedianOfTwo(a, k, b, m);
    var f := DeviationFrom(Middle(a, k, b, m));
    MapConcat(Repeat(a, k), Repeat(b, m), f);
    RepeatMap(a, k, f);
    RepeatMap(b, m, f);
    if k >= m {
      assert f(a) <= f(b);
      MedianOfTwo(f(a), k, f(b), m);
    } else {
      var x, y := Repeat(f(a), k), Repeat(f(b), m);
      assert multiset(x + y) == multiset(y + x);
      MedianPerm(x + y, y + x);
      MedianOfTwo(f(b), m, f(a), k);
    }
  }

  /** With values this close the scale is its floor. */
  lemma ScoreOfTwo(x: real, a: real, k: nat, b: real, m: nat)
    requires a <= b <= a + 0.1 && k + m > 0 && x >= b
    ensures UpwardZ(x, Repeat(a, k) + Repeat(b, m)) == (x - Middle(a, k, b, m)) * 10.0
  {
    hide Center, Mad, Repeat;
    MadOfTwo(a, k, b, m);
    assert Scale(Mad(Repeat(a, k) + Repeat(b, m))) == 0.1;
    QuotientUnique(x - Middle(a, k, b, m), 0.1, (x - Middle(a, k, b, m)) * 10.0);
  }

  // ---- The readings -----------------------------------------------------------------------

  function RobustZ(): FeatureSet -> real {
    (f: FeatureSet) => f.behavior.robustZ
  }

  function AnomalyScore(): FeatureSet -> real {
    (f: FeatureSet) => f.behavior.anomalyScore
  }

  /** Three values of log(1 + x), as far apart as the true ones: 1.0 and 1.1 close, 2.0 well above both. */
  predicate LogLike(f: real -> real) {
    f(1.0) < f(1.1) <= f(1.0) + 0.1 && f(1.1) + 0.3 <= f(2.0) <= f(1.1) + 0.7
  }

  lemma ColdBaseline(c: Config, s: Tables, t: Txn, now: int)
    requires c.Valid() && TableInv(s) && c.maxHistory < c.engine.minHistory
    ensures Compute(c, s, t, now).features.behavior.robustZ == 0.0
    ensures Compute(c, s, t, now).features.behavior.anomalyScore == 0.0
  {
    hide HistoryWindow, NetworkWindows, ComputeVelocity, ComputeNetwork, Filter, UpwardZ;
    var history := HistoryWindow(c, s.rows, t).0;
    HistoryFits(c, s, t);
    FilterLength(history, Comparable(t, t.time - c.engine.longDays * DAY));
    MapIndex(Sample(c.engine, t, history), LogAmount(c.engine));
  }

  lemma ScoresAreNonNegative(e: Engine, t: Txn, history: seq<Txn>)
    ensures ComputeBehavior(e, t, history).robustZ >= 0.0 && ComputeBehavior(e, t, history).anomalyScore >= 0.0
  {
    hide Filter, Center, Mad, Scale;
  }

  // ---- Half at one value, the rest just above ---------------------------------------------

  lemma {:induction false} LogsOfEqual(e: Engine, s: seq<Txn>, amount: Money)
    requires forall x :: x in s ==> x.amount == amount
    ensures Map(s, LogAmount(e)) == Repeat(e.log1p(Units(amount)), |s|)
    decreases |s|
  {
    if s != [] {
      assert s[0] in s && forall x :: x in s[1..] ==> x in s;
      LogsOfEqual(e, s[1..], amount);
    }
  }

  lemma {:induction false} RepeatConcat(a: real, k: nat, m: nat)
    ensures Repeat(a, k) + Repeat(a, m) == Repeat(a, k + m)
  {
  }

  lemma PartLogs(e: Engine, k: nat, m: nat, n: nat)
    ensures var recent, past := Recent(k, 10_000, m, 11_000), Past(k + m, n, 11_000);
            var a, b := e.log1p(1.0), e.log1p(1.1);
            && Map(recent, LogAmount(e)) == Repeat(a, k) + Repeat(b, m)
            && Map(recent + past, LogAmount(e)) == Repeat(a, k) + Repeat(b, m + n)
  {
    hide Batch, Map, Repeat;
    var one, two, past := Batch(0, k, 1, 10_000), Batch(k, m, 1, 11_000), Batch(k + m, n, 0, 11_000);
    var a, b := e.log1p(1.0), e.log1p(1.1);
    assert Units(10_000) == 1.0 && Units(11_000) == 1.1;
    BatchIsLike(0, k, 1, 10_000);
    BatchIsLike(k, m, 1, 11_000);
    BatchIsLike(k + m, n, 0, 11_000);
    LogsOfEqual(e, one, 10_000);
    LogsOfEqual(e, two, 11_000);
    LogsOfEqual(e, past, 11_000);
    MapConcat(one, two, LogAmount(e));
    MapConcat(one + two, past, LogAmount(e));
    RepeatConcat(b, m, n);
    assert Repeat(a, k) + Repeat(b, m) + Repeat(b, n) == Repeat(a, k) + (Repeat(b, m) + Repeat(b, n));
  }

  /** The baseline of a one-day history of the subject. */
  lemma OneDayBehavior(e: Engine, t: Txn, s: seq<Txn>, logs: seq<real>)
    requires InOneDay(s) && t.time == 2 && t.currency == "USD" && t.direction == None && e.longDays > 0
    requires Map(s, LogAmount(e)) == logs && |logs| >= e.minHistory
    ensures var z := UpwardZ(e.log1p(Units(t.amount)), logs);
            && ComputeBehavior(e, t, s).robustZ == MinReal(z, 100.0)
            && ComputeBehavior(e, t, s).anomalyScore == MinReal(MaxReal((z - 3.0) / 5.0, 0.0), 1.0)
  {
    hide Filter, UpwardZ, Map;
    FilterAll(s, Comparable(t, t.time - e.longDays * DAY));
  }

  lemma BaselineWitness(c: Config, n: nat)
    requires c.Valid() && c.engine.minHistory <= c.maxHistory < n <= LARGEST && LogLike(c.engine.log1p)
    ensures !NeverOverstated(c, c.engine.longDays, n, RobustZ())
    ensures !NeverOverstated(c, c.engine.longDays, n, AnomalyScore())
  {
    hide Observed, StoreOf, Compute, ScanFeatures, ComputeVelocity, ComputeBehavior, Recent, Past, CanMeet;
    hide UpwardZ, Repeat, Map;
    var e, h, past := c.engine, c.maxHistory, n - c.maxHistory;
    var m := h / 2;
    var k := h - m;
    var recent, older, t := Recent(k, 10_000, m, 11_000), Past(h, past, 11_000), Candidate(n, 20_000);
    var s := StoreOf(c, recent + older);
    var a, b, x := e.log1p(1.0), e.log1p(1.1), e.log1p(2.0);
    Witness(c, k, 10_000, m, 11_000, past, 11_000, 20_000);
    PartLogs(e, k, m, past);
    assert Units(20_000) == 2.0;
    OneDayBehavior(e, t, recent, Repeat(a, k) + Repeat(b, m));
    OneDayBehavior(e, t, recent + older, Repeat(a, k) + Repeat(b, m + past));
    ScoreOfTwo(x, a, k, b, m);
    ScoreOfTwo(x, a, k, b, m + past);
    assert Middle(a, k, b, m) < Middle(a, k, b, m + past);
    assert RobustZ()(Compute(c, s, t, 0).features) > RobustZ()(Scanned(c, s, t));
    assert AnomalyScore()(Compute(c, s, t, 0).features) > AnomalyScore()(Scanned(c, s, t));
  }

  /** Main result: the robust z and the anomaly score are never overstated while the long window fits the
      limit, or the limit is too small for the baseline ever to be ready; and for logarithms apart as the
      true ones are, in no other case, up to `LARGEST`. */
  lemma BaselineNeedsTheLongWindow(c: Config, n: nat)
    requires c.Valid() && n <= LARGEST && LogLike(c.engine.log1p)
    ensures NeverOverstated(c, c.engine.longDays, n, RobustZ())
            <==> n <= c.maxHistory || c.maxHistory < c.engine.minHistory
    ensures NeverOverstated(c, c.engine.longDays, n, AnomalyScore())
            <==> n <= c.maxHistory || c.maxHistory < c.engine.minHistory
  {
    if n > c.maxHistory && c.maxHistory >= c.engine.minHistory {
      BaselineWitness(c, n);
    } else {
      BaselineIsSafe(c, n);
    }
  }

  /** This half needs nothing of the logarithm. */
  lemma BaselineIsSafe(c: Config, n: nat)
    requires c.Valid() && (n <= c.maxHistory || c.maxHistory < c.engine.minHistory)
    ensures NeverOverstated(c, c.engine.longDays, n, RobustZ())
    ensures NeverOverstated(c, c.engine.longDays, n, AnomalyScore())
  {
    hide Observed, Compute, ComputeBehavior, ComputeVelocity, ComputeNetwork, TableInv, NotStored, CanMeet;
    forall s: Tables, t: Txn, now: int
      | CanMeet(c, s, t) && |Observed(c, s, t, t.time - c.engine.longDays * DAY)| == n
      ensures Compute(c, s, t, now).features.behavior.robustZ <= Scanned(c, s, t).behavior.robustZ
      ensures Compute(c, s, t, now).features.behavior.anomalyScore <= Scanned(c, s, t).behavior.anomalyScore
    {
      MeetingIsValid(c, s, t);
      if n <= c.maxHistory {
        LongWindowFits(c, s, t, now);
      } else {
        ColdBaseline(c, s, t, now);
        ScoresAreNonNegative(c.engine, t, HistoricalAccountTransactions(c.engine, t, Payloads(s.rows)));
      }
    }
  }
}
