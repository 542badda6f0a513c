/** Persisting a set of transactions in any event-time order stores the same features for each. */
module OrderIndependence {
  import opened Basics
  import opened Sequences
  import opened Features
  import opened Store
  import opened Windows

  /** Persisting submissions, with the publisher free to delete outbox rows in between. */
  datatype Op = Submit(txn: Txn, origin: Origin, now: int) | Publish(sequence: nat)

  function Apply(c: Config, s: Tables, op: Op): Tables
    requires c.Valid()
  {
    match op
    case Submit(t, o, now) => EvaluateStep(c, s, Some(t), true, o, now)
    case Publish(sequence) => MarkPublishedStep(s, sequence)
  }

  function Run(c: Config, s: Tables, ops: seq<Op>): Tables
    requires c.Valid()
    decreases |ops|
  {
    if ops == [] then s else Run(c, Apply(c, s, ops[0]), ops[1..])
  }

  /** New identifiers, event times that never step back, and no capacity refusal. */
  ghost predicate Admissible(c: Config, s: Tables, ops: seq<Op>, clock: int)
    requires c.Valid()
    decreases |ops|
  {
    ops == [] ||
    (match ops[0]
     case Submit(t, _, _) =>
       && clock <= t.time && FindRow(s.rows, t.id).None? && |s.outbox| < c.maxOutbox
       && Admissible(c, Apply(c, s, ops[0]), ops[1..], t.time)
     case Publish(_) => Admissible(c, Apply(c, s, ops[0]), ops[1..], clock))
  }

  function Submitted(ops: seq<Op>): seq<Txn> {
    if ops == [] then []
    else (if ops[0].Submit? then [ops[0].txn] else []) + Submitted(ops[1..])
  }

  /** The rows a run adds, in order. */
  function Added(c: Config, s: Tables, ops: seq<Op>): seq<Row>
    requires c.Valid()
    decreases |ops|
  {
    if ops == [] then []
    else
      (if ops[0].Submit? then [NewRow(ops[0].txn, Compute(c, s, ops[0].txn, ops[0].now))] else [])
      + Added(c, Apply(c, s, ops[0]), ops[1..])
  }

  lemma ApplyRows(c: Config, s: Tables, op: Op)
    requires c.Valid() && TableInv(s)
    requires op.Submit? ==> FindRow(s.rows, op.txn.id).None? && |s.outbox| < c.maxOutbox
    ensures var n := Apply(c, s, op);
            && TableInv(n) && n.customers == s.customers && n.accounts == s.accounts
            && n.rows == s.rows + (if op.Submit? then [NewRow(op.txn, Compute(c, s, op.txn, op.now))] else [])
  {
    hide Compute, NewEnvelope, Filter;
    if op.Submit? {
      EvaluateKeepsInv(c, s, Some(op.txn), true, op.origin, op.now);
    }
  }

  /** The clock after an operation: the event time it submits, if any. */
  function After(op: Op, clock: int): int {
    if op.Submit? then op.txn.time else clock
  }

  lemma {:induction false} RunRows(c: Config, s: Tables, ops: seq<Op>, clock: int)
    requires c.Valid() && TableInv(s) && Admissible(c, s, ops, clock)
    ensures var n := Run(c, s, ops);
            && TableInv(n) && n.customers == s.customers && n.accounts == s.accounts
            && n.rows == s.rows + Added(c, s, ops)
    decreases |ops|
  {
    hide Compute, TableInv, Apply, NewRow;
    if ops == [] {
      assert s.rows + [] == s.rows;
    } else {
      var n := Apply(c, s, ops[0]);
      ApplyRows(c, s, ops[0]);
      RunRows(c, n, ops[1..], After(ops[0], clock));
      assert (n.rows + Added(c, n, ops[1..])) == s.rows + Added(c, s, ops);
    }
  }

  lemma {:induction false} AddedTimes(c: Config, s: Tables, ops: seq<Op>, clock: int)
    requires c.Valid() && TableInv(s) && Admissible(c, s, ops, clock)
    ensures forall r :: r in Added(c, s, ops) ==> r.time >= clock
    decreases |ops|
  {
    hide Compute, TableInv, Apply;
    if ops != [] {
      ApplyRows(c, s, ops[0]);
      AddedTimes(c, Apply(c, s, ops[0]), ops[1..], After(ops[0], clock));
    }
  }

  lemma {:induction false} AddedPayloads(c: Config, s: Tables, ops: seq<Op>)
    requires c.Valid()
    ensures Payloads(Added(c, s, ops)) == Submitted(ops)
    decreases |ops|
  {
    hide Compute, Apply;
    if ops != [] {
      var op, n := ops[0], Apply(c, s, ops[0]);
      AddedPayloads(c, n, ops[1..]);
      if op.Submit? {
        MapPrepend(NewRow(op.txn, Compute(c, s, op.txn, op.now)), Added(c, n, ops[1..]), PayloadOf());
      } else {
        assert [] + Added(c, n, ops[1..]) == Added(c, n, ops[1..]);
      }
    }
  }

  // ---- What a snapshot depends on ---------------------------------------------------------

  /** Everything but the observation of later events and the wall clock. */
  function Timeless(r: Snapshot): Snapshot {
    r.(lateEvent := false, computedAt := 0)
  }

  ghost predicate SameWindow(c: Column, key: string, start: int, end: int, limit: nat, a: seq<Row>, b: seq<Row>) {
    Window(a, c, key, start, end, limit) == Window(b, c, key, start, end, limit)
  }

  /** Two tables answer every window that ends by `end` alike. */
  ghost predicate SameWindows(a: seq<Row>, b: seq<Row>, end: int) {
    forall c, key, start, limit: nat :: SameWindow(c, key, start, end, limit, a, b)
  }

  lemma SameSnapshot(c: Config, s: Tables, n: Tables, t: Txn, now: int, later: int)
    requires c.Valid() && SameWindows(s.rows, n.rows, t.time)
    requires s.customers == n.customers && s.accounts == n.accounts
    ensures Timeless(Compute(c, s, t, now)) == Timeless(Compute(c, n, t, later))
  {
    hide ComputeFromHistory, Window;
    assert SameWindow(AccountColumn, t.account, t.time - c.engine.WindowDays() * DAY, t.time, c.maxHistory,
                      s.rows, n.rows);
    assert SameWindow(SourceColumn, t.account, t.time - HOUR, t.time, c.maxNetwork, s.rows, n.rows);
    assert SameWindow(TargetColumn, t.account, t.time - HOUR, t.time, c.maxNetwork, s.rows, n.rows);
  }

  /** Rows at or after the end of a window are outside it. */
  lemma LaterRowsUnseen(rows: seq<Row>, later: seq<Row>, end: int)
    requires forall r :: r in later ==> r.time >= end
    ensures SameWindows(rows, rows + later, end)
  {
    forall c, key, start, limit: nat
      ensures SameWindow(c, key, start, end, limit, rows, rows + later)
    {
      FilterConcat(rows, later, InWindow(c, key, start, end));
      FilterNone(later, InWindow(c, key, start, end));
      assert Filter(rows, InWindow(c, key, start, end)) + [] == Filter(rows, InWindow(c, key, start, end));
    }
  }

  /** Every snapshot a run stores equals the one computed against the final table. */
  lemma {:induction false} StoredEqualsFinal(c: Config, s: Tables, ops: seq<Op>, clock: int)
    requires c.Valid() && TableInv(s) && Admissible(c, s, ops, clock)
    ensures forall r, now :: r in Added(c, s, ops) ==>
              Timeless(r.result) == Timeless(Compute(c, Run(c, s, ops), r.payload, now))
    decreases |ops|
  {
    hide Compute, TableInv, Apply;
    if ops != [] {
      var op := ops[0];
      var n := Apply(c, s, op);
      ApplyRows(c, s, op);
      StoredEqualsFinal(c, n, ops[1..], After(op, clock));
      RunRows(c, n, ops[1..], After(op, clock));
      AddedTimes(c, n, ops[1..], After(op, clock));
      if op.Submit? {
        var final := Run(c, n, ops[1..]);
        var r := NewRow(op.txn, Compute(c, s, op.txn, op.now));
        var later := [r] + Added(c, n, ops[1..]);
        assert final.rows == s.rows + later;
        LaterRowsUnseen(s.rows, later, op.txn.time);
        forall now
          ensures Timeless(r.result) == Timeless(Compute(c, final, r.payload, now))
        {
          SameSnapshot(c, s, final, op.txn, op.now, now);
        }
      }
    }
  }

  lemma PayloadsDistinct(s: Tables)
    requires TableInv(s)
    ensures DistinctIds(Payloads(s.rows))
  {
    MapIndex(s.rows, PayloadOf());
    forall i, j | 0 <= i < j < |s.rows|
      ensures Payloads(s.rows)[i].id != Payloads(s.rows)[j].id
    {
      assert RowOk(s.rows[i]) && RowOk(s.rows[j]);
    }
  }

  /** Tables with the same evidence answer every window alike, whatever the order of insertion. */
  lemma SameEvidenceSameWindows(s: Tables, n: Tables, end: int)
    requires TableInv(s) && TableInv(n) && multiset(Payloads(s.rows)) == multiset(Payloads(n.rows))
    ensures SameWindows(s.rows, n.rows, end)
  {
    hide Window, Kept, Filter, Map;
    PayloadsDistinct(s);
    forall c, key, start, limit: nat
      ensures SameWindow(c, key, start, end, limit, s.rows, n.rows)
    {
      WindowOnPayloads(s.rows, c, key, start, end, limit);
      WindowOnPayloads(n.rows, c, key, start, end, limit);
      KeptPerm(Payloads(s.rows), Payloads(n.rows), c, key, start, end, limit);
    }
  }

  /** Main result: two runs from the same table that persist the same transactions, each in an order
      of non-decreasing event time, store for every one of them the same snapshot in all but
      `late_event` and the wall clock, even where its windows are truncated. */
  lemma OrderIndependence(c: Config, s: Tables, a: seq<Op>, b: seq<Op>, clock: int, x: Row, y: Row)
    requires c.Valid() && TableInv(s) && Admissible(c, s, a, clock) && Admissible(c, s, b, clock)
    requires multiset(Submitted(a)) == multiset(Submitted(b))
    requires x in Added(c, s, a) && y in Added(c, s, b) && x.payload == y.payload
    ensures Timeless(x.result) == Timeless(y.result)
  {
    hide Compute, TableInv, Map;
    var fa, fb := Run(c, s, a), Run(c, s, b);
    RunRows(c, s, a, clock);
    RunRows(c, s, b, clock);
    AddedPayloads(c, s, a);
    AddedPayloads(c, s, b);
    StoredEqualsFinal(c, s, a, clock);
    StoredEqualsFinal(c, s, b, clock);
    MapConcat(s.rows, Added(c, s, a), PayloadOf());
    MapConcat(s.rows, Added(c, s, b), PayloadOf());
    assert multiset(Payloads(fa.rows)) == multiset(Payloads(s.rows)) + multiset(Submitted(a));
    assert multiset(Payloads(fb.rows)) == multiset(Payloads(s.rows)) + multiset(Submitted(b));
    SameEvidenceSameWindows(fa, fb, x.payload.time);
    SameSnapshot(c, fa, fb, x.payload, 0, 0);
  }
}
