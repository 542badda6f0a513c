/** Pass-through under truncation: exactly for which sizes of the incoming window it can be overstated. */
module NetworkOverstatement {
  import opened Basics
  import opened Sequences
  import opened Features
  import opened Store
  import opened Windows
  import opened Refinement
  import opened Truncation
  import opened Identifiers
  import opened Acceptance
  import opened Overstatement
  import Meaning

  /** Pass-through is raised by the index only where the full scan raises it, in any store that can come
      about and holds `n` transfers to the account within the hour, for any candidate that can be received. */
  ghost predicate PassThroughNeverOverstated(c: Config, n: nat)
    requires c.Valid()
  {
    forall s: Tables, t: Txn, now: int ::
      CanMeet(c, s, t) && |Transfers(t, Payloads(s.rows), TargetColumn)| == n ==>
        Compute(c, s, t, now).features.network.passThrough <= ComputeNetwork(t, Payloads(s.rows)).passThrough
  }

  // ---- Two senders are too few ------------------------------------------------------------

  lemma {:induction false} SendersCount(s: seq<Txn>)
    ensures |Senders(s)| <= |s|
    decreases |s|
  {
    if s != [] {
      SendersCount(s[1..]);
      assert Senders(s) == {s[0].account} + Senders(s[1..]);
    }
  }

  lemma IncomingIsReceived(c: Config, s: Tables, t: Txn)
    requires c.Valid() && TableInv(s) && HasNetwork(t)
    ensures |Incoming(t, NetworkWindows(c, s.rows, t).0)| <= c.maxNetwork
  {
    hide Filter, Incoming, Outgoing, NetworkWindow, Matches;
    var all := Payloads(s.rows);
    var (paid, _) := NetworkWindow(c, s.rows, t, SourceColumn);
    var (received, _) := NetworkWindow(c, s.rows, t, TargetColumn);
    NetworkWindowKept(c, s, t, SourceColumn);
    NetworkWindowKept(c, s, t, TargetColumn);
    forall x | x in multiset(Incoming(t, paid + received))
      ensures multiset(Incoming(t, paid + received))[x] <= multiset(received)[x]
    {
      FlowMultiplicity(t, paid + received, x);
      SidesOfPayment(t, all, x);
    }
    SizeSub(Incoming(t, paid + received), received);
    ReceivedFits(c, s, t);
  }

  lemma ReceivedFits(c: Config, s: Tables, t: Txn)
    requires c.Valid() && TableInv(s)
    ensures |NetworkWindow(c, s.rows, t, TargetColumn).0| <= c.maxNetwork
  {
    hide Kept, Window, Filter;
    WindowOnPayloads(s.rows, TargetColumn, t.account, t.time - HOUR, t.time, c.maxNetwork);
    TruncationIsExact(Payloads(s.rows), TargetColumn, t.account, t.time - HOUR, t.time, c.maxNetwork);
  }

  lemma TooFewSenders(c: Config, s: Tables, t: Txn, now: int)
    requires c.Valid() && TableInv(s) && c.maxNetwork < 3
    ensures Compute(c, s, t, now).features.network.passThrough == 0.0
  {
    hide HistoryWindow, NetworkWindows, ComputeVelocity, ComputeBehavior, Incoming, Outgoing, Senders, Filter;
    var network := NetworkWindows(c, s.rows, t).0;
    if HasNetwork(t) {
      IncomingIsReceived(c, s, t);
      FilterLength(Incoming(t, network), InCurrency(t.currency));
      SendersCount(Filter(Incoming(t, network), InCurrency(t.currency)));
    }
  }

  // ---- Payments just collected, older ones cut off ----------------------------------------

  function Transfer(i: nat, time: int, amount: Money): Txn {
    Txn(Label(i), "S" + Label(i), time, amount, "USD", "US", None, None, Some(SUBJECT), Some(Outbound))
  }

  function Transferred(from: nat, n: nat, time: int, amount: Money): seq<Txn>
    decreases n
  {
    if n == 0 then [] else [Transfer(from, time, amount)] + Transferred(from + 1, n - 1, time, amount)
  }

  lemma {:induction false} TransferredAt(from: nat, n: nat, time: int, amount: Money)
    ensures |Transferred(from, n, time, amount)| == n
    ensures forall i :: 0 <= i < n ==> Transferred(from, n, time, amount)[i] == Transfer(from + i, time, amount)
    decreases n
  {
    if n > 0 {
      TransferredAt(from + 1, n - 1, time, amount);
    }
  }

  predicate IsTransferLike(x: Txn, time: int, amount: Money) {
    && x.counterparty == Some(SUBJECT) && x.account != SUBJECT && x.direction == Some(Outbound)
    && x.time == time && x.amount == amount && x.currency == "USD"
  }

  lemma TransferredLike(from: nat, n: nat, time: int, amount: Money)
    ensures |Transferred(from, n, time, amount)| == n && Labelled(Transferred(from, n, time, amount), from)
    ensures forall x :: x in Transferred(from, n, time, amount) ==> IsTransferLike(x, time, amount)
  {
    hide Transferred;
    TransferredAt(from, n, time, amount);
    forall x | x in Transferred(from, n, time, amount)
      ensures IsTransferLike(x, time, amount)
    {
      var i :| 0 <= i < n && Transferred(from, n, time, amount)[i] == x;
      assert x.account[0] == 'S';
    }
  }

  function Payer(i: nat, amount: Money): Txn {
    Txn(Label(i), SUBJECT, HOUR, amount, "USD", "US", None, None, Some("B"), Some(Outbound))
  }

  /** Transfers into the subject's account within the hour before `t`. */
  ghost predicate IntoSubject(all: seq<Txn>, t: Txn) {
    forall x :: x in all ==>
      && x.counterparty == Some(SUBJECT) && x.account != SUBJECT && x.direction == Some(Outbound)
      && t.time - HOUR <= x.time < t.time && x.id != t.id && x.currency == t.currency
  }

  lemma IntoSubjectFlows(all: seq<Txn>, t: Txn)
    requires IntoSubject(all, t) && t.account == SUBJECT
    ensures Incoming(t, all) == all && Filter(all, InCurrency(t.currency)) == all
    ensures Transfers(t, all, TargetColumn) == all && Transfers(t, all, SourceColumn) == []
  {
    hide Filter;
    FilterAll(all, RecentEdge(t));
    FilterAll(all, PaidTo(t.account));
    FilterAll(all, InCurrency(t.currency));
    FilterAll(all, Matches(TargetColumn, t.account, t.time - HOUR, t.time));
    FilterNone(all, Matches(SourceColumn, t.account, t.time - HOUR, t.time));
  }

  /** Of the two parts the index lists the recent one, as long as that fills the limit. */
  lemma RecentTransfersSeen(c: Config, recent: seq<Txn>, past: seq<Txn>, t: Txn)
    requires c.Valid() && t.account == SUBJECT && HasNetwork(t) && |recent| == c.maxNetwork
    requires DistinctIds(recent + past) && IntoSubject(recent + past, t)
    requires (forall x :: x in recent ==> x.time >= t.time - 1) && forall x :: x in past ==> x.time < t.time - 1
    ensures var s := StoreOf(c, recent + past);
            && TableInv(s) && NotStored(s, t) && Payloads(s.rows) == recent + past
            && ((AcceptedEvidence(t) && forall x :: x in recent + past ==> AcceptedEvidence(x)) ==> CanMeet(c, s, t))
            && multiset(NetworkWindows(c, s.rows, t).0) == multiset(recent)
  {
    hide Filter, Kept, Window, StoreOf, Transfers, Incoming, AcceptedEvidence, CanMeet;
    var s, all := StoreOf(c, recent + past), recent + past;
    StoreIsValid(c, all, t);
    StoredPayloads(c, all);
    IntoSubjectFlows(all, t);
    TransfersAreMatches(t, all);
    NetworkWindowKept(c, s, t, SourceColumn);
    SourceIsEmpty(c, s, t);
    TargetIsRecent(c, s, recent, past, t);
  }

  lemma TransfersAreMatches(t: Txn, all: seq<Txn>)
    ensures Transfers(t, all, TargetColumn) == Filter(all, Matches(TargetColumn, t.account, t.time - HOUR, t.time))
    ensures Transfers(t, all, SourceColumn) == Filter(all, Matches(SourceColumn, t.account, t.time - HOUR, t.time))
  {
  }

  lemma SourceIsEmpty(c: Config, s: Tables, t: Txn)
    requires c.Valid() && TableInv(s) && Transfers(t, Payloads(s.rows), SourceColumn) == []
    ensures NetworkWindow(c, s.rows, t, SourceColumn).0 == []
  {
    hide Filter, Kept, Window, NetworkWindow;
    NetworkWindowKept(c, s, t, SourceColumn);
  }

  lemma TargetIsRecent(c: Config, s: Tables, recent: seq<Txn>, past: seq<Txn>, t: Txn)
    requires c.Valid() && TableInv(s) && Payloads(s.rows) == recent + past && t.account == SUBJECT
    requires IntoSubject(recent + past, t) && |recent| == c.maxNetwork
    requires (forall x :: x in recent ==> x.time >= t.time - 1) && forall x :: x in past ==> x.time < t.time - 1
    ensures multiset(NetworkWindow(c, s.rows, t, TargetColumn).0) == multiset(recent)
  {
    hide Filter, Kept, Window;
    var all := recent + past;
    assert forall x: Txn :: x in all <==> x in recent || x in past;
    FilterSplit(recent, past, Matches(TargetColumn, t.account, t.time - 1, t.time));
    WindowOnPayloads(s.rows, TargetColumn, t.account, t.time - HOUR, t.time, c.maxNetwork);
    RecentSurvives(all, TargetColumn, t.account, t.time - HOUR, t.time, c.maxNetwork, t.time - 1);
    ReceivedFits(c, s, t);
    var received := NetworkWindow(c, s.rows, t, TargetColumn).0;
    FilterWithin(received, Since(t.time - 1));
    SubOfSameSize(Filter(received, Since(t.time - 1)), received);
  }

  /** As many recent transfers of ten as the limit, making up the payment, after older ones of as much each. */
  lemma CollectedParts(m: nat, n: nat)
    requires 3 <= m < n
    ensures var recent, past := Transferred(0, m, HOUR - 1, 10), Transferred(m, n - m, 0, 10 * m);
            var t := Payer(n, 10 * m);
            && |recent| == m && |past| == n - m && DistinctIds(recent + past) && IntoSubject(recent + past, t)
            && (forall x :: x in recent ==> x.time == HOUR - 1) && (forall x :: x in past ==> x.time == 0)
            && Sum(recent, AmountOf()) == 10 * m && Sum(recent + past, AmountOf()) >= 20 * m
            && |Senders(recent)| >= 3
  {
    hide Transferred, Sum;
    var recent, past := Transferred(0, m, HOUR - 1, 10), Transferred(m, n - m, 0, 10 * m);
    var all := recent + past;
    TransferredLike(0, m, HOUR - 1, 10);
    TransferredLike(m, n - m, 0, 10 * m);
    assert forall x: Txn :: x in all <==> x in recent || x in past;
    assert Labelled(all, 0);
    LabelledIsDistinct(all);
    SumOfEqual(recent, 10);
    SumOfEqual(past, 10 * m);
    SumConcat(recent, past, AmountOf());
    AtLeastOnce(n - m, 10 * m);
    ThreeSenders(m);
  }

  lemma TransferAccepted(i: nat, time: int, amount: Money)
    requires i <= LARGEST && InCalendar(time) && amount <= 10 * LARGEST
    ensures AcceptedEvidence(Transfer(i, time, amount))
  {
    hide Label, AcceptedAmount;
    LabelIsIdentifier(i, 'S');
    SmallAmount(amount);
  }

  lemma PayerAccepted(i: nat, amount: Money)
    requires i <= LARGEST && amount <= 10 * LARGEST
    ensures AcceptedEvidence(Payer(i, amount))
  {
    hide Label, AcceptedAmount;
    LabelIsIdentifier(i, 'S');
    SmallAmount(amount);
  }

  lemma TransferredAccepted(from: nat, n: nat, time: int, amount: Money)
    requires from + n <= LARGEST && InCalendar(time) && amount <= 10 * LARGEST
    ensures forall x :: x in Transferred(from, n, time, amount) ==> AcceptedEvidence(x)
  {
    hide Transferred, Transfer, AcceptedEvidence;
    TransferredAt(from, n, time, amount);
    forall x | x in Transferred(from, n, time, amount)
      ensures AcceptedEvidence(x)
    {
      var i :| 0 <= i < n && Transferred(from, n, time, amount)[i] == x;
      TransferAccepted(from + i, time, amount);
    }
  }

  lemma CollectedAccepted(m: nat, n: nat)
    requires 3 <= m < n <= LARGEST
    ensures AcceptedEvidence(Payer(n, 10 * m))
    ensures forall x :: x in Transferred(0, m, HOUR - 1, 10) + Transferred(m, n - m, 0, 10 * m) ==> AcceptedEvidence(x)
  {
    hide Transferred, Payer, AcceptedEvidence;
    PayerAccepted(n, 10 * m);
    TransferredAccepted(0, m, HOUR - 1, 10);
    TransferredAccepted(m, n - m, 0, 10 * m);
  }

  lemma AtLeastOnce(k: nat, a: nat)
    requires k > 0
    ensures k * a >= a
  {
    Times(k - 1, a);
    assert (k - 1) * a >= 0;
  }

  lemma SendersDiffer(i: nat, j: nat)
    requires i != j
    ensures "S" + Label(i) != "S" + Label(j)
  {
    hide Label;
    LabelsDiffer(i, j);
    assert ("S" + Label(i))[1..] == Label(i) && ("S" + Label(j))[1..] == Label(j);
  }

  lemma ThreeSenders(m: nat)
    requires m >= 3
    ensures |Senders(Transferred(0, m, HOUR - 1, 10))| >= 3
  {
    hide Transferred;
    TransferredAt(0, m, HOUR - 1, 10);
    var recent := Transferred(0, m, HOUR - 1, 10);
    var three := {"S" + Label(0), "S" + Label(1), "S" + Label(2)};
    SendersDiffer(0, 1);
    SendersDiffer(0, 2);
    SendersDiffer(1, 2);
    hide Label;
    assert |three| == 3;
    forall i | 0 <= i < 3
      ensures "S" + Label(i) in Senders(recent)
    {
      assert recent[i] in recent;
    }
    SubsetSize(three, Senders(recent));
  }

  lemma PassThroughWitness(c: Config, n: nat)
    requires c.Valid() && 3 <= c.maxNetwork < n <= LARGEST
    ensures !PassThroughNeverOverstated(c, n)
  {
    hide Transferred, StoreOf, ComputeNetwork, ComputeVelocity, ComputeBehavior, HistoryWindow, NetworkWindows;
    hide Incoming, Transfers, Senders, Sum, Filter, TableInv, NotStored, DistinctIds, AcceptedEvidence, CanMeet, Payer;
    var m := c.maxNetwork;
    var recent, past, t := Transferred(0, m, HOUR - 1, 10), Transferred(m, n - m, 0, 10 * m), Payer(n, 10 * m);
    var s, all := StoreOf(c, recent + past), recent + past;
    CollectedParts(m, n);
    CollectedAccepted(m, n);
    PayerFacts(n, 10 * m);
    assert forall x: Txn :: x in recent ==> x in all;
    RecentTransfersSeen(c, recent, past, t);
    IntoSubjectFlows(all, t);
    IntoSubjectFlows(recent, t);
    IncomingPerm(t, NetworkWindows(c, s.rows, t).0, recent);
    IncomingPart(t, NetworkWindows(c, s.rows, t).0, recent);
    Meaning.PassThrough(t, recent);
    Meaning.PassThrough(t, all);
    NetworkOf(c, s, t);
    PassThroughIsFlag(t, all);
    assert Compute(c, s, t, 0).features.network.passThrough > ComputeNetwork(t, Payloads(s.rows)).passThrough;
  }

  lemma PayerFacts(i: nat, amount: Money)
    ensures var t := Payer(i, amount);
            t.account == SUBJECT && HasNetwork(t) && t.time == HOUR && t.amount == amount
  {
  }

  lemma NetworkOf(c: Config, s: Tables, t: Txn)
    requires c.Valid()
    ensures Compute(c, s, t, 0).features.network == ComputeNetwork(t, NetworkWindows(c, s.rows, t).0)
  {
    hide ComputeNetwork, ComputeVelocity, ComputeBehavior, HistoryWindow, NetworkWindows;
  }

  lemma PassThroughIsFlag(t: Txn, all: seq<Txn>)
    ensures ComputeNetwork(t, all).passThrough in {0.0, 1.0}
  {
    hide Incoming, Outgoing, PassesThrough, AnyReciprocates;
  }

  lemma IncomingPerm(t: Txn, a: seq<Txn>, b: seq<Txn>)
    requires multiset(a) == multiset(b)
    ensures multiset(Incoming(t, a)) == multiset(Incoming(t, b))
  {
    hide Filter;
    FilterPerm(a, b, RecentEdge(t));
    FilterPerm(Filter(a, RecentEdge(t)), Filter(b, RecentEdge(t)), PaidTo(t.account));
  }

  /** Main result: pass-through is never overstated exactly while the transfers to the account fit the
      limit, or the limit leaves room for fewer than the three senders it takes; for every other size, up
      to `LARGEST`, a store can come about where only what was cut off shows the payment to be none. */
  lemma PassThroughNeedsTheIncomingWindow(c: Config, n: nat)
    requires c.Valid() && n <= LARGEST
    ensures PassThroughNeverOverstated(c, n) <==> n <= c.maxNetwork || c.maxNetwork < 3
  {
    hide Compute, ComputeNetwork, TableInv, NotStored, Transfers, CanMeet;
    if n > c.maxNetwork && c.maxNetwork >= 3 {
      PassThroughWitness(c, n);
    } else {
      forall s: Tables, t: Txn, now: int
        | CanMeet(c, s, t) && |Transfers(t, Payloads(s.rows), TargetColumn)| == n
        ensures Compute(c, s, t, now).features.network.passThrough <= ComputeNetwork(t, Payloads(s.rows)).passThrough
      {
        MeetingIsValid(c, s, t);
        if n <= c.maxNetwork {
          DirectionsAreExact(c, s, t, now);
        } else {
          TooFewSenders(c, s, t, now);
          PassThroughIsFlag(t, Payloads(s.rows));
        }
      }
    }
  }
}
