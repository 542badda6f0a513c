/** What `late_event` means when events arrive in any order, what its absence guarantees, and what it cannot tell. */
module LateEvents {
  import opened Basics
  import opened Sequences
  import opened Features
  import opened Store
  import opened Windows
  import opened Refinement
  import opened Truncation
  import opened OrderIndependence
  import opened Acceptance
  import Meaning

  /** New identifiers and no capacity refusal; event times in any order. */
  ghost predicate Fits(c: Config, s: Tables, ops: seq<Op>)
    requires c.Valid()
    decreases |ops|
  {
    ops == [] ||
    ((ops[0].Submit? ==> FindRow(s.rows, ops[0].txn.id).None? && |s.outbox| < c.maxOutbox)
     && Fits(c, Apply(c, s, ops[0]), ops[1..]))
  }

  lemma {:induction false} FittingRows(c: Config, s: Tables, ops: seq<Op>)
    requires c.Valid() && TableInv(s) && Fits(c, s, ops)
    ensures var n := Run(c, s, ops);
            && TableInv(n) && n.customers == s.customers && n.accounts == s.accounts
            && n.rows == s.rows + Added(c, s, ops)
    decreases |ops|
  {
    hide Compute, TableInv, Apply, NewRow, FindRow;
    if ops == [] {
      assert s.rows + [] == s.rows;
    } else {
      var n := Apply(c, s, ops[0]);
      ApplyRows(c, s, ops[0]);
      FittingRows(c, n, ops[1..]);
      assert (n.rows + Added(c, n, ops[1..])) == s.rows + Added(c, s, ops);
    }
  }

  /** None of these rows of the account was flagged when it was stored. */
  predicate Unflagged(rows: seq<Row>, account: string) {
    forall r :: r in rows && r.account == account ==> !r.result.lateEvent
  }

  // ---- Unflagged rows of an account are in order ------------------------------------------

  lemma RowFacts(c: Config, s: Tables, t: Txn, now: int)
    requires c.Valid()
    ensures var r := NewRow(t, Compute(c, s, t, now));
            && r.payload == t && r.account == t.account && r.time == t.time && r.result == Compute(c, s, t, now)
            && (r.source.Some? ==> r.source == Some(r.account))
            && (r.result.lateEvent <==> ObservedLater(s.rows, t))
  {
    hide HistoryWindow, NetworkWindows, ComputeFromHistory, ObservedLater;
    hide RelevantAccounts, RelevantCustomers, CustomerOf;
  }

  lemma RowIsLater(rows: seq<Row>, t: Txn, r: Row, row: Row)
    requires r in rows && row.account == t.account && row.time == t.time
    requires row.account == r.account ==> !ObservedLater(rows, t)
    ensures row.account == r.account ==> row.time > r.time
  {
  }

  /** Everything the account adds after a row of its own, unflagged, is later than that row. */
  lemma {:induction false} UnflaggedIsLater(c: Config, s: Tables, ops: seq<Op>, r: Row)
    requires c.Valid() && TableInv(s) && Fits(c, s, ops) && r in s.rows
    requires Unflagged(Added(c, s, ops), r.account)
    ensures forall q :: q in Added(c, s, ops) ==>
              (q.account == r.account ==> q.time > r.time) && (q.source.Some? ==> q.source == Some(q.account))
    decreases |ops|
  {
    hide Compute, TableInv, Apply, NewRow, FindRow;
    if ops != [] {
      var op, n := ops[0], Apply(c, s, ops[0]);
      ApplyRows(c, s, op);
      var rest := Added(c, n, ops[1..]);
      assert forall q :: q in rest ==> q in Added(c, s, ops);
      UnflaggedIsLater(c, n, ops[1..], r);
      if op.Submit? {
        var row := NewRow(op.txn, Compute(c, s, op.txn, op.now));
        RowFacts(c, s, op.txn, op.now);
        assert Added(c, s, ops) == [row] + rest;
        assert row in Added(c, s, ops);
        RowIsLater(s.rows, op.txn, r, row);
      } else {
        assert Added(c, s, ops) == [] + rest;
      }
    }
  }

  // ---- Windows of the account's own rows --------------------------------------------------

  lemma ExtraUnseen(rows: seq<Row>, extra: seq<Row>, column: Column, key: string, start: int, end: int, limit: nat)
    requires forall r :: r in extra && Cell(r, column) == Some(key) ==> r.time >= end
    ensures SameWindow(column, key, start, end, limit, rows, rows + extra)
  {
    hide Sort, Take;
    FilterConcat(rows, extra, InWindow(column, key, start, end));
    FilterNone(extra, InWindow(column, key, start, end));
    assert Filter(rows, InWindow(column, key, start, end)) + [] == Filter(rows, InWindow(column, key, start, end));
  }

  /** Fan-out is told by the source window alone. */
  lemma OutgoingIsPaid(t: Txn, paid: seq<Txn>, received: seq<Txn>)
    requires forall x :: x in received ==> TxnCell(x, TargetColumn) == Some(t.account)
    ensures Outgoing(t, paid + received) == Outgoing(t, paid)
  {
    hide Filter;
    FilterConcat(paid, received, RecentEdge(t));
    FilterConcat(Filter(paid, RecentEdge(t)), Filter(received, RecentEdge(t)), PaidBy(t.account));
    forall x | x in Filter(received, RecentEdge(t))
      ensures !PaidBy(t.account)(x)
    {
      FilterMember(received, RecentEdge(t), x);
    }
    FilterNone(Filter(received, RecentEdge(t)), PaidBy(t.account));
    assert Outgoing(t, paid) + [] == Outgoing(t, paid);
  }

  lemma ReceivedCells(c: Config, s: Tables, t: Txn)
    requires c.Valid() && TableInv(s)
    ensures forall x :: x in NetworkWindow(c, s.rows, t, TargetColumn).0 ==> TxnCell(x, TargetColumn) == Some(t.account)
  {
    hide Filter, Window, Kept;
    var all, p := Payloads(s.rows), Matches(TargetColumn, t.account, t.time - HOUR, t.time);
    WindowOnPayloads(s.rows, TargetColumn, t.account, t.time - HOUR, t.time, c.maxNetwork);
    TruncationIsExact(all, TargetColumn, t.account, t.time - HOUR, t.time, c.maxNetwork);
    forall x | x in NetworkWindow(c, s.rows, t, TargetColumn).0
      ensures TxnCell(x, TargetColumn) == Some(t.account)
    {
      MemberPerm(NetworkWindow(c, s.rows, t, TargetColumn).0, Filter(all, p), x);
      FilterMember(all, p, x);
    }
  }

  /** Everything but the incoming side of the network and the flags that go with it. */
  predicate SameOwn(a: Snapshot, b: Snapshot) {
    && a.features.amount == b.features.amount && a.features.velocity == b.features.velocity
    && a.features.behavior == b.features.behavior && a.features.country == b.features.country
    && a.features.customer == b.features.customer && a.features.time == b.features.time
    && SameOutgoing(a.features.network, b.features.network)
    && a.features.network.available == b.features.network.available && a.historyTruncated == b.historyTruncated
  }

  lemma SameOwnWindows(c: Config, s: Tables, n: Tables, t: Txn, now: int, later: int)
    requires c.Valid() && TableInv(s) && TableInv(n) && s.customers == n.customers && s.accounts == n.accounts
    requires HistoryWindow(c, s.rows, t) == HistoryWindow(c, n.rows, t)
    requires NetworkWindow(c, s.rows, t, SourceColumn) == NetworkWindow(c, n.rows, t, SourceColumn)
    ensures SameOwn(Compute(c, s, t, now), Compute(c, n, t, later))
  {
    hide HistoryWindow, NetworkWindow, TableInv, ComputeVelocity, ComputeBehavior, ComputeNetwork;
    ReceivedCells(c, s, t);
    ReceivedCells(c, n, t);
    NetworkByOutgoing(t, NetworkWindows(c, s.rows, t).0, NetworkWindows(c, n.rows, t).0);
    if IsTransfer(t) {
      var paid := NetworkWindow(c, s.rows, t, SourceColumn).0;
      OutgoingIsPaid(t, paid, NetworkWindow(c, s.rows, t, TargetColumn).0);
      OutgoingIsPaid(t, paid, NetworkWindow(c, n.rows, t, TargetColumn).0);
    }
  }

  lemma NetworkByOutgoing(t: Txn, a: seq<Txn>, b: seq<Txn>)
    ensures Outgoing(t, a) == Outgoing(t, b) ==> SameOutgoing(ComputeNetwork(t, a), ComputeNetwork(t, b))
    ensures ComputeNetwork(t, a).available == ComputeNetwork(t, b).available
  {
    hide Incoming, Outgoing, PassesThrough, AnyReciprocates, Senders, Recipients;
  }

  // ---- What an unset flag guarantees ------------------------------------------------------

  /** Rows of other accounts, and later rows of this one, leave what the account itself did unchanged. */
  lemma OwnPartUnchanged(c: Config, s: Tables, n: Tables, t: Txn, extra: seq<Row>, now: int, later: int)
    requires c.Valid() && TableInv(s) && TableInv(n) && n.rows == s.rows + extra
    requires n.customers == s.customers && n.accounts == s.accounts
    requires forall r :: r in extra ==>
               (r.account == t.account ==> r.time >= t.time) && (r.source.Some? ==> r.source == Some(r.account))
    ensures SameOwn(Compute(c, s, t, now), Compute(c, n, t, later))
  {
    hide TableInv, Compute, Window;
    ExtraUnseen(s.rows, extra, AccountColumn, t.account, t.time - c.engine.WindowDays() * DAY, t.time, c.maxHistory);
    ExtraUnseen(s.rows, extra, SourceColumn, t.account, t.time - HOUR, t.time, c.maxNetwork);
    SameOwnWindows(c, s, n, t, now, later);
  }

  predicate PaysNothing(rows: seq<Row>, account: string, time: int) {
    forall r :: r in rows ==> !InWindow(TargetColumn, account, time - HOUR, time)(r)
  }

  /** Rows that pay the account nothing within the hour before `t` leave the incoming side unchanged too. */
  lemma WholeUnchanged(c: Config, s: Tables, n: Tables, t: Txn, extra: seq<Row>, now: int, later: int)
    requires c.Valid() && n.rows == s.rows + extra && n.customers == s.customers && n.accounts == s.accounts
    requires forall r :: r in extra ==>
               (r.account == t.account ==> r.time >= t.time) && (r.source.Some? ==> r.source == Some(r.account))
    requires PaysNothing(extra, t.account, t.time)
    ensures Timeless(Compute(c, s, t, now)) == Timeless(Compute(c, n, t, later))
  {
    hide Window, ComputeFromHistory, Sort, Take;
    ExtraUnseen(s.rows, extra, AccountColumn, t.account, t.time - c.engine.WindowDays() * DAY, t.time, c.maxHistory);
    ExtraUnseen(s.rows, extra, SourceColumn, t.account, t.time - HOUR, t.time, c.maxNetwork);
    TargetUnseen(c, s.rows, extra, t);
  }

  lemma TargetUnseen(c: Config, rows: seq<Row>, extra: seq<Row>, t: Txn)
    requires PaysNothing(extra, t.account, t.time)
    ensures NetworkWindow(c, rows, t, TargetColumn) == NetworkWindow(c, rows + extra, t, TargetColumn)
  {
    hide Sort, Take;
    var p := InWindow(TargetColumn, t.account, t.time - HOUR, t.time);
    FilterConcat(rows, extra, p);
    FilterNone(extra, p);
    assert Filter(rows, p) + [] == Filter(rows, p);
  }

  lemma NotItsOwnWindow(row: Row, rest: seq<Row>)
    requires PaysNothing(rest, row.account, row.time)
    ensures PaysNothing([row] + rest, row.account, row.time)
  {
  }

  lemma FirstIsFinal(c: Config, s: Tables, n: Tables, ops: seq<Op>, row: Row, rest: seq<Row>, now: int)
    requires c.Valid() && TableInv(s) && ops != [] && ops[0].Submit? && Fits(c, s, ops) && n == Apply(c, s, ops[0])
    requires row == NewRow(ops[0].txn, Compute(c, s, ops[0].txn, ops[0].now)) && rest == Added(c, n, ops[1..])
    requires Unflagged(rest, row.account)
    ensures var final := Compute(c, Run(c, s, ops), row.payload, now);
            && SameOwn(row.result, final)
            && (PaysNothing(rest, row.account, row.time) ==> Timeless(row.result) == Timeless(final))
  {
    hide Compute, TableInv, Apply, NewRow, FindRow, SameOwn, Timeless, InWindow;
    var t := ops[0].txn;
    ApplyRows(c, s, ops[0]);
    RowFacts(c, s, t, ops[0].now);
    UnflaggedIsLater(c, n, ops[1..], row);
    FittingRows(c, n, ops[1..]);
    var final := Run(c, n, ops[1..]);
    assert Run(c, s, ops) == final;
    var extra := [row] + rest;
    assert final.rows == s.rows + extra;
    OwnPartUnchanged(c, s, final, t, extra, ops[0].now, now);
    if PaysNothing(rest, row.account, row.time) {
      NotItsOwnWindow(row, rest);
      WholeUnchanged(c, s, final, t, extra, ops[0].now, now);
    }
  }

  /** Main result: submit in any order. As long as no later row of its own account is flagged, what a
      snapshot says about that account's own doings - velocity, structuring, baseline, fan-out and the
      history flag - is what the final table would say, and all of it is, if no later row pays the account
      within the hour before. */
  lemma {:induction false} UnflaggedIsFinal(c: Config, s: Tables, ops: seq<Op>, i: nat, now: int)
    requires c.Valid() && TableInv(s) && Fits(c, s, ops) && i < |Added(c, s, ops)|
    requires Unflagged(Added(c, s, ops)[i + 1..], Added(c, s, ops)[i].account)
    ensures var r := Added(c, s, ops)[i];
            var final := Compute(c, Run(c, s, ops), r.payload, now);
            && SameOwn(r.result, final)
            && (PaysNothing(Added(c, s, ops)[i + 1..], r.account, r.time) ==>
                  Timeless(r.result) == Timeless(final))
    decreases |ops|
  {
    hide Compute, TableInv, Apply, NewRow, FindRow, SameOwn, Timeless, InWindow;
    var op, n := ops[0], Apply(c, s, ops[0]);
    var rest := Added(c, n, ops[1..]);
    ApplyRows(c, s, op);
    if !op.Submit? {
      assert Added(c, s, ops) == [] + rest == rest;
      UnflaggedIsFinal(c, n, ops[1..], i, now);
    } else {
      var row := NewRow(op.txn, Compute(c, s, op.txn, op.now));
      assert Added(c, s, ops) == [row] + rest;
      if i > 0 {
        assert Added(c, s, ops)[i + 1..] == rest[i..];
        UnflaggedIsFinal(c, n, ops[1..], i - 1, now);
      } else {
        assert Added(c, s, ops)[1..] == rest;
        FirstIsFinal(c, s, n, ops, row, rest, now);
      }
    }
  }

  // ---- What it cannot tell ----------------------------------------------------------------

  function Payment(id: string, payer: string, payee: string, time: int): Txn {
    Txn(id, payer, time, 10_000, "USD", "US", None, None, Some(payee), Some(Outbound))
  }

  const FIRST_ARRIVED := Payment("T1", "A", "B", HOUR)
  const DELAYED := Payment("T2", "B", "A", HOUR - 1)

  /** The second payment happened just before the first, in the other direction, and arrives after it. */
  function DelayedRun(): seq<Op> {
    [Submit(FIRST_ARRIVED, Origin("E", None), 0), Publish(1), Submit(DELAYED, Origin("E", None), 0)]
  }

  lemma DelayedRunSteps(c: Config)
    requires c.Valid()
    ensures var ops := DelayedRun();
            && Fits(c, EMPTY_TABLES, ops) && Submitted(ops) == [FIRST_ARRIVED, DELAYED]
            && var first := NewRow(FIRST_ARRIVED, Compute(c, EMPTY_TABLES, FIRST_ARRIVED, 0));
               exists s: Tables :: s.rows == [first] && TableInv(s)
                           && Added(c, EMPTY_TABLES, ops) == [first, NewRow(DELAYED, Compute(c, s, DELAYED, 0))]
                           && Payloads(Run(c, EMPTY_TABLES, ops).rows) == [FIRST_ARRIVED, DELAYED]
                           && TableInv(Run(c, EMPTY_TABLES, ops))
  {
    hide Compute, TableInv;
    var ops := DelayedRun();
    var first := NewRow(FIRST_ARRIVED, Compute(c, EMPTY_TABLES, FIRST_ARRIVED, 0));
    EmptyIsValid();
    FeedOne(c, EMPTY_TABLES, FIRST_ARRIVED);
    var submitted := Apply(c, EMPTY_TABLES, ops[0]);
    var s := Apply(c, submitted, ops[1]);
    assert s.rows == [first];
    assert FIRST_ARRIVED.id[1] != DELAYED.id[1];
    FoundIsPresent(EMPTY_TABLES, first, DELAYED.id);
    assert EMPTY_TABLES.rows + [first] == [first];
    ApplyRows(c, s, ops[2]);
    var n := Apply(c, s, ops[2]);
    hide Apply;
    assert ops[1..] == [ops[1], ops[2]] && ops[1..][1..] == [ops[2]] && ops[1..][1..][1..] == [];
    assert Fits(c, n, []);
    assert Fits(c, s, [ops[2]]);
    assert Fits(c, submitted, ops[1..]);
    assert Run(c, n, []) == n;
    assert Run(c, s, [ops[2]]) == n;
    assert Run(c, submitted, ops[1..]) == n;
    assert Added(c, s, [ops[2]]) == [NewRow(DELAYED, Compute(c, s, DELAYED, 0))];
    assert Added(c, submitted, ops[1..]) == [] + Added(c, s, [ops[2]]);
    PayloadAdded([], first);
    PayloadAdded(s.rows, NewRow(DELAYED, Compute(c, s, DELAYED, 0)));
  }

  /** A window over at most one row is never cut off. */
  lemma SmallStoreFits(c: Config, s: Tables, t: Txn, now: int)
    requires c.Valid() && |s.rows| <= 1
    ensures !Compute(c, s, t, now).historyTruncated && !Compute(c, s, t, now).networkTruncated
  {
    hide ComputeFromHistory, Filter, Sort, InWindow;
    forall column, key, start, end, limit: nat | limit >= 1
      ensures !Window(s.rows, column, key, start, end, limit).1
    {
      FilterLength(s.rows, InWindow(column, key, start, end));
    }
  }

  lemma OnlyIncoming(c: Config, s: Tables, t: Txn, incoming: seq<Txn>)
    requires c.Valid() && TableInv(s) && HasNetwork(t) && |incoming| <= 1
    requires Incoming(t, Payloads(s.rows)) == incoming && |Transfers(t, Payloads(s.rows), TargetColumn)| <= c.maxNetwork
    ensures Incoming(t, NetworkWindows(c, s.rows, t).0) == incoming
  {
    hide NetworkWindows, Filter, Incoming, Outgoing, Transfers;
    NetworkRefines(c, s, t);
    var found := Incoming(t, NetworkWindows(c, s.rows, t).0);
    SizePerm(found, incoming);
    if |found| == 1 {
      assert found[0] in multiset(incoming);
    }
  }

  lemma SecondOnly(a: Txn, b: Txn, p: Txn -> bool)
    requires !p(a) && p(b)
    ensures Filter([a, b], p) == [b] && Filter([b], p) == [b]
  {
    assert [a, b][1..] == [b] && [b][1..] == [];
    assert Filter([b], p) == [b] + Filter([], p);
    assert Filter([a, b], p) == [] + Filter([b], p);
  }

  lemma DelayedFlows()
    ensures Incoming(FIRST_ARRIVED, []) == [] && Transfers(FIRST_ARRIVED, [], TargetColumn) == []
    ensures var all := [FIRST_ARRIVED, DELAYED];
            Incoming(FIRST_ARRIVED, all) == [DELAYED] && Transfers(FIRST_ARRIVED, all, TargetColumn) == [DELAYED]
  {
    var all := [FIRST_ARRIVED, DELAYED];
    assert FIRST_ARRIVED.id[1] != DELAYED.id[1];
    assert FIRST_ARRIVED.account[0] != DELAYED.account[0];
    var p, q := RecentEdge(FIRST_ARRIVED), Matches(TargetColumn, FIRST_ARRIVED.account, 0, HOUR);
    assert !p(FIRST_ARRIVED) && p(DELAYED) && !q(FIRST_ARRIVED) && q(DELAYED);
    assert PaidTo(FIRST_ARRIVED.account)(DELAYED) && Filter([DELAYED], PaidTo(FIRST_ARRIVED.account)) == [DELAYED];
    SecondOnly(FIRST_ARRIVED, DELAYED, p);
    SecondOnly(FIRST_ARRIVED, DELAYED, q);
  }

  lemma FlowsDecide(incoming: seq<Txn>, network: seq<Txn>)
    requires Incoming(FIRST_ARRIVED, network) == incoming
    ensures incoming == [] ==> ComputeNetwork(FIRST_ARRIVED, network).fanIn == 0
                               && ComputeNetwork(FIRST_ARRIVED, network).reciprocal == 0.0
    ensures incoming == [DELAYED] ==> ComputeNetwork(FIRST_ARRIVED, network).fanIn == 1
                                      && ComputeNetwork(FIRST_ARRIVED, network).reciprocal == 1.0
  {
    hide Incoming, Outgoing, PassesThrough;
    assert FIRST_ARRIVED.account[0] != FIRST_ARRIVED.counterparty.value[0];
    if incoming == [DELAYED] {
      assert Senders(incoming) == {DELAYED.account};
      assert DELAYED in incoming;
      Meaning.RatioInBand(FIRST_ARRIVED.amount, DELAYED.amount);
    }
  }

  lemma DelayedIsAccepted()
    ensures AcceptedEvidence(FIRST_ARRIVED) && AcceptedEvidence(DELAYED)
  {
    SmallAmount(10_000);
  }

  /** A delay on another account goes unnoticed: for every configuration there is accepted evidence that
      leaves, on an empty store, two snapshots without a flag of any kind although the first one's fan-in
      and reciprocal flow are no longer what the stored evidence says. */
  lemma DelayElsewhere(c: Config, now: int) returns (ops: seq<Op>)
    requires c.Valid()
    ensures Fits(c, EMPTY_TABLES, ops) && forall t :: t in Submitted(ops) ==> AcceptedEvidence(t)
    ensures forall r :: r in Added(c, EMPTY_TABLES, ops) ==>
              !r.result.lateEvent && !r.result.historyTruncated && !r.result.networkTruncated
    ensures exists r :: r in Added(c, EMPTY_TABLES, ops)
              && var final := Compute(c, Run(c, EMPTY_TABLES, ops), r.payload, now);
                 && r.result.features.network.fanIn == 0 && final.features.network.fanIn == 1
                 && r.result.features.network.reciprocal == 0.0 && final.features.network.reciprocal == 1.0
  {
    hide Compute, NewRow, TableInv, Apply, Run, Fits, AcceptedEvidence;
    ops := DelayedRun();
    var first := NewRow(FIRST_ARRIVED, Compute(c, EMPTY_TABLES, FIRST_ARRIVED, 0));
    DelayedRunSteps(c);
    var s: Tables :| s.rows == [first]
                     && Added(c, EMPTY_TABLES, ops) == [first, NewRow(DELAYED, Compute(c, s, DELAYED, 0))];
    hide Added;
    DelayedIsAccepted();
    FirstUnflagged(c);
    SecondUnflagged(c, s);
    assert first in Added(c, EMPTY_TABLES, ops);
    FinalFlows(c, Run(c, EMPTY_TABLES, ops), now);
  }

  lemma FirstUnflagged(c: Config)
    requires c.Valid()
    ensures NewRow(FIRST_ARRIVED, Compute(c, EMPTY_TABLES, FIRST_ARRIVED, 0)).payload == FIRST_ARRIVED
    ensures var r := NewRow(FIRST_ARRIVED, Compute(c, EMPTY_TABLES, FIRST_ARRIVED, 0)).result;
            && !r.lateEvent && !r.historyTruncated && !r.networkTruncated
            && r.features.network.fanIn == 0 && r.features.network.reciprocal == 0.0
  {
    hide HistoryWindow, NetworkWindows, ComputeVelocity, ComputeBehavior, ComputeNetwork, TableInv, Transfers;
    EmptyIsValid();
    RowFacts(c, EMPTY_TABLES, FIRST_ARRIVED, 0);
    SmallStoreFits(c, EMPTY_TABLES, FIRST_ARRIVED, 0);
    DelayedFlows();
    assert Payloads(EMPTY_TABLES.rows) == [];
    OnlyIncoming(c, EMPTY_TABLES, FIRST_ARRIVED, []);
    FlowsDecide([], NetworkWindows(c, EMPTY_TABLES.rows, FIRST_ARRIVED).0);
  }

  lemma SecondUnflagged(c: Config, s: Tables)
    requires c.Valid() && s.rows == [NewRow(FIRST_ARRIVED, Compute(c, EMPTY_TABLES, FIRST_ARRIVED, 0))]
    ensures var r := NewRow(DELAYED, Compute(c, s, DELAYED, 0)).result;
            !r.lateEvent && !r.historyTruncated && !r.networkTruncated
  {
    hide Compute, NewRow;
    RowFacts(c, EMPTY_TABLES, FIRST_ARRIVED, 0);
    RowFacts(c, s, DELAYED, 0);
    SmallStoreFits(c, s, DELAYED, 0);
    assert FIRST_ARRIVED.account[0] != DELAYED.account[0];
  }

  lemma FinalFlows(c: Config, n: Tables, now: int)
    requires c.Valid() && TableInv(n) && Payloads(n.rows) == [FIRST_ARRIVED, DELAYED]
    ensures Compute(c, n, FIRST_ARRIVED, now).features.network.fanIn == 1
    ensures Compute(c, n, FIRST_ARRIVED, now).features.network.reciprocal == 1.0
  {
    hide HistoryWindow, NetworkWindows, ComputeVelocity, ComputeBehavior, ComputeNetwork, TableInv, Transfers, Payloads;
    DelayedFlows();
    OnlyIncoming(c, n, FIRST_ARRIVED, [DELAYED]);
    FlowsDecide([DELAYED], NetworkWindows(c, n.rows, FIRST_ARRIVED).0);
  }

  // ---- What a set flag means --------------------------------------------------------------

  /** An earlier row of the same account has an event time at or after that of the i-th. */
  ghost predicate Overtaken(rows: seq<Row>, i: nat)
    requires i < |rows|
  {
    exists j :: 0 <= j < i && rows[j].account == rows[i].account && rows[j].time >= rows[i].time
  }

  ghost predicate FlagIsExact(rows: seq<Row>, i: nat)
    requires i < |rows|
  {
    rows[i].result.lateEvent <==> Overtaken(rows, i)
  }

  /** From the `from`-th row on, the flags are exact. */
  ghost predicate FlagsExact(rows: seq<Row>, from: nat) {
    forall i :: from <= i < |rows| ==> FlagIsExact(rows, i)
  }

  lemma FlagStays(rows: seq<Row>, row: Row, i: nat)
    requires i < |rows| && FlagIsExact(rows, i)
    ensures FlagIsExact(rows + [row], i)
  {
    var more := rows + [row];
    assert more[i] == rows[i] && forall j :: 0 <= j < i ==> more[j] == rows[j];
    if Overtaken(more, i) {
      var j :| 0 <= j < i && more[j].account == more[i].account && more[j].time >= more[i].time;
      assert rows[j].account == rows[i].account;
    }
    if Overtaken(rows, i) {
      var j :| 0 <= j < i && rows[j].account == rows[i].account && rows[j].time >= rows[i].time;
      assert more[j].account == more[i].account;
    }
  }

  lemma NewFlagIsExact(c: Config, s: Tables, t: Txn, now: int)
    requires c.Valid()
    ensures FlagIsExact(s.rows + [NewRow(t, Compute(c, s, t, now))], |s.rows|)
  {
    hide Compute, NewRow;
    var row := NewRow(t, Compute(c, s, t, now));
    var rows, n := s.rows + [row], |s.rows|;
    RowFacts(c, s, t, now);
    assert rows[n] == row && forall j :: 0 <= j < n ==> rows[j] == s.rows[j];
    if row.result.lateEvent {
      var r :| r in s.rows && r.account == t.account && r.time >= t.time;
      var j :| 0 <= j < |s.rows| && s.rows[j] == r;
      assert rows[j].account == rows[n].account;
    }
    if Overtaken(rows, n) {
      var j :| 0 <= j < n && rows[j].account == rows[n].account && rows[j].time >= rows[n].time;
      assert s.rows[j] in s.rows;
    }
  }

  lemma ActKeepsFlags(c: Config, s: Tables, a: Action, from: nat)
    requires c.Valid() && FlagsExact(s.rows, from)
    ensures FlagsExact(Act(c, s, a).rows, from) && s.rows <= Act(c, s, a).rows
  {
    hide Compute, FlagIsExact, NewRow, FindRow, NewEnvelope, Filter;
    var n := Act(c, s, a);
    if n.rows != s.rows {
      var t, now := a.op.txn, a.op.now;
      var row := NewRow(t, Compute(c, s, t, now));
      assert n.rows == s.rows + [row];
      forall i | from <= i < |n.rows|
        ensures FlagIsExact(n.rows, i)
      {
        if i < |s.rows| {
          FlagStays(s.rows, row, i);
        } else {
          NewFlagIsExact(c, s, t, now);
        }
      }
    }
  }

  /** Main result: from any store, over any history of entities, submissions in any order, replays, conflicts,
      refusals and publications, a row stored in it is flagged exactly if an earlier row of its account, one
      of the initial ones included, has an event time at or after its own. */
  lemma {:induction false} FlagsAreExact(c: Config, s: Tables, actions: seq<Action>, from: nat)
    requires c.Valid() && FlagsExact(s.rows, from)
    ensures FlagsExact(Acts(c, s, actions).rows, from) && s.rows <= Acts(c, s, actions).rows
    decreases |actions|
  {
    hide Act, FlagsExact;
    if actions != [] {
      ActKeepsFlags(c, s, actions[0], from);
      FlagsAreExact(c, Act(c, s, actions[0]), actions[1..], from);
    }
  }

  /** Rows of one account are listed in strictly increasing event time. */
  ghost predicate InOrder(rows: seq<Row>, account: string) {
    forall i, j :: 0 <= i < j < |rows| && rows[i].account == account && rows[j].account == account ==>
      rows[i].time < rows[j].time
  }

  /** In every store that can come about, an account has no flagged row exactly if its transactions
      arrived in strictly increasing event time. */
  lemma UnflaggedIsInOrder(c: Config, s: Tables, account: string)
    requires c.Valid() && Reachable(c, s)
    ensures InOrder(s.rows, account) <==> Unflagged(s.rows, account)
  {
    hide Accepting, Acts, AcceptedEvidence;
    var actions :| Accepting(actions) && Acts(c, EMPTY_TABLES, actions) == s;
    FlagsAreExact(c, EMPTY_TABLES, actions, 0);
    if InOrder(s.rows, account) {
      forall r | r in s.rows && r.account == account
        ensures !r.result.lateEvent
      {
        var i :| 0 <= i < |s.rows| && s.rows[i] == r;
        assert FlagIsExact(s.rows, i);
      }
    }
    if Unflagged(s.rows, account) {
      forall i, j | 0 <= i < j < |s.rows| && s.rows[i].account == account && s.rows[j].account == account
        ensures s.rows[i].time < s.rows[j].time
      {
        assert FlagIsExact(s.rows, j) && s.rows[j] in s.rows;
      }
    }
  }
}
