/** Evidence the boundary lets through, and the tables that can come of it. */
module Acceptance {
  import opened Basics
  import opened Sequences
  import opened Features
  import opened Store
  import opened Windows
  import opened Refinement
  import opened OrderIndependence
  import opened Identifiers
  import Canonical

  // ---- Accepted evidence ------------------------------------------------------------------

  predicate IsCode(s: string, length: nat) {
    |s| == length && forall i :: 0 <= i < |s| ==> IsUpper(s[i])
  }

  /** The microseconds of the years 1 to 9999. */
  predicate InCalendar(time: int) {
    -62_135_596_800_000_000 <= time < 253_402_300_800_000_000
  }

  predicate AcceptedAmount(m: Money) {
    m < Canonical.Pow10(Canonical.MAX_DIGITS)
  }

  predicate AcceptedEvidence(t: Txn) {
    && IsIdentifier(t.id) && IsIdentifier(t.account) && (t.counterparty.Some? ==> IsIdentifier(t.counterparty.value))
    && InCalendar(t.time) && IsCode(t.currency, 3) && IsCode(t.country, 2) && AcceptedAmount(t.amount)
    && (t.baseCurrency.Some? <==> t.baseAmount.Some?)
    && (t.baseCurrency.Some? ==> IsCode(t.baseCurrency.value, 3))
    && (t.baseAmount.Some? ==> AcceptedAmount(t.baseAmount.value))
    && (t.baseCurrency == Some(t.currency) ==> t.baseAmount == Some(t.amount))
  }

  // ---- Reachable tables -------------------------------------------------------------------

  /** Everything that changes a store's tables. */
  datatype Action = Put(entity: Entity) | Do(op: Op)

  function Act(c: Config, s: Tables, a: Action): Tables
    requires c.Valid()
  {
    match a
    case Put(e) => PutEntityStep(s, e)
    case Do(op) => Apply(c, s, op)
  }

  function Acts(c: Config, s: Tables, actions: seq<Action>): Tables
    requires c.Valid()
    decreases |actions|
  {
    if actions == [] then s else Acts(c, Act(c, s, actions[0]), actions[1..])
  }

  predicate Accepting(actions: seq<Action>) {
    forall a :: a in actions && a.Do? && a.op.Submit? ==> AcceptedEvidence(a.op.txn)
  }

  /** Some history of entities, accepted submissions and publications leads here from the empty tables. */
  ghost predicate Reachable(c: Config, s: Tables)
    requires c.Valid()
  {
    exists actions :: Accepting(actions) && Acts(c, EMPTY_TABLES, actions) == s
  }

  lemma {:induction false} ActsKeepInv(c: Config, s: Tables, actions: seq<Action>)
    requires c.Valid() && TableInv(s)
    ensures TableInv(Acts(c, s, actions))
    decreases |actions|
  {
    hide TableInv, EvaluateStep, Filter;
    if actions != [] {
      match actions[0]
      case Put(e) => PutEntityKeepsInv(s, e); ActsKeepInv(c, PutEntityStep(s, e), actions[1..]);
      case Do(op) =>
        if op.Submit? {
          EvaluateKeepsInv(c, s, Some(op.txn), true, op.origin, op.now);
        } else {
          PublishKeepsInv(s, op.sequence);
        }
        ActsKeepInv(c, Apply(c, s, op), actions[1..]);
    }
  }

  lemma PublishKeepsInv(s: Tables, sequence: nat)
    requires TableInv(s)
    ensures TableInv(MarkPublishedStep(s, sequence))
  {
    hide RowOk;
  }

  lemma ReachableIsValid(c: Config, s: Tables)
    requires c.Valid() && Reachable(c, s)
    ensures TableInv(s)
  {
    hide Accepting, TableInv;
    var actions :| Accepting(actions) && Acts(c, EMPTY_TABLES, actions) == s;
    EmptyIsValid();
    ActsKeepInv(c, EMPTY_TABLES, actions);
  }

  /** Tables and a new candidate that can meet in the running store. */
  ghost predicate CanMeet(c: Config, s: Tables, t: Txn)
    requires c.Valid()
  {
    Reachable(c, s) && AcceptedEvidence(t) && NotStored(s, t)
  }

  lemma MeetingIsValid(c: Config, s: Tables, t: Txn)
    requires c.Valid() && CanMeet(c, s, t)
    ensures TableInv(s) && NotStored(s, t) && AcceptedEvidence(t)
  {
    hide Reachable, AcceptedEvidence, TableInv, NotStored;
    ReachableIsValid(c, s);
  }

  /** Reachable tables hold accepted evidence only. */
  lemma {:induction false} ActsAccept(c: Config, s: Tables, actions: seq<Action>)
    requires c.Valid() && Accepting(actions) && forall r :: r in s.rows ==> AcceptedEvidence(r.payload)
    ensures forall r :: r in Acts(c, s, actions).rows ==> AcceptedEvidence(r.payload)
    decreases |actions|
  {
    hide AcceptedEvidence, Compute;
    if actions != [] {
      assert actions[0] in actions && forall a :: a in actions[1..] ==> a in actions;
      ActsAccept(c, Act(c, s, actions[0]), actions[1..]);
    }
  }

  lemma ReachableIsAccepted(c: Config, s: Tables)
    requires c.Valid() && Reachable(c, s)
    ensures forall r :: r in s.rows ==> AcceptedEvidence(r.payload)
  {
    hide Accepting, AcceptedEvidence, Acts;
    var actions :| Accepting(actions) && Acts(c, EMPTY_TABLES, actions) == s;
    ActsAccept(c, EMPTY_TABLES, actions);
  }

  lemma EmptyIsValid()
    ensures TableInv(EMPTY_TABLES)
  {
  }

  // ---- Stores that hold given evidence ----------------------------------------------------

  /** Each transaction submitted and its event published before the next. */
  function Feeding(txns: seq<Txn>, sequence: nat): seq<Action>
    decreases |txns|
  {
    if txns == [] then []
    else [Do(Submit(txns[0], Origin("E", None), 0)), Do(Publish(sequence))] + Feeding(txns[1..], sequence + 1)
  }

  lemma {:induction false} FeedingAccepts(txns: seq<Txn>, sequence: nat)
    requires forall t :: t in txns ==> AcceptedEvidence(t)
    ensures Accepting(Feeding(txns, sequence))
    decreases |txns|
  {
    hide AcceptedEvidence;
    if txns != [] {
      FeedingAccepts(txns[1..], sequence + 1);
    }
  }

  /** Submitting and publishing one new transaction adds its row and leaves the outbox empty again. */
  lemma FeedOne(c: Config, s: Tables, t: Txn)
    requires c.Valid() && TableInv(s) && s.outbox == [] && FindRow(s.rows, t.id).None?
    ensures var n := Apply(c, Apply(c, s, Submit(t, Origin("E", None), 0)), Publish(s.nextSequence));
            && TableInv(n) && n.outbox == [] && n.nextSequence == s.nextSequence + 1
            && n.customers == s.customers && n.accounts == s.accounts
            && n.rows == s.rows + [NewRow(t, Compute(c, s, t, 0))]
  {
    hide Compute, NewRow, NewEnvelope, TableInv;
    var submitted := Apply(c, s, Submit(t, Origin("E", None), 0));
    EvaluateKeepsInv(c, s, Some(t), true, Origin("E", None), 0);
    PublishKeepsInv(submitted, s.nextSequence);
    assert |submitted.outbox| == 1 && submitted.outbox[0].sequence == s.nextSequence;
    assert Filter(submitted.outbox, Unpublished(s.nextSequence)) == [];
  }

  lemma FoundIsPresent(s: Tables, row: Row, id: string)
    requires FindRow(s.rows, id).None? && row.id != id
    ensures FindRow(s.rows + [row], id).None?
  {
    FindRowFinds(s.rows, id);
    FindRowFinds(s.rows + [row], id);
  }

  lemma PayloadAdded(rows: seq<Row>, row: Row)
    ensures Payloads(rows + [row]) == Payloads(rows) + [row.payload]
  {
    MapConcat(rows, [row], PayloadOf());
    MapPrepend(row, [], PayloadOf());
  }

  lemma RestStaysNew(s: Tables, row: Row, txns: seq<Txn>)
    requires txns != [] && DistinctIds(txns) && row.id == txns[0].id
    requires forall t :: t in txns ==> FindRow(s.rows, t.id).None?
    ensures DistinctIds(txns[1..]) && forall t :: t in txns[1..] ==> FindRow(s.rows + [row], t.id).None?
  {
    hide FindRow;
    forall t | t in txns[1..]
      ensures FindRow(s.rows + [row], t.id).None?
    {
      var i :| 0 <= i < |txns[1..]| && txns[1..][i] == t;
      assert txns[i + 1] == t;
      FoundIsPresent(s, row, t.id);
    }
  }

  lemma TwoActs(c: Config, s: Tables, a: Action, b: Action, rest: seq<Action>)
    requires c.Valid()
    ensures Acts(c, s, [a, b] + rest) == Acts(c, Act(c, Act(c, s, a), b), rest)
  {
    hide Act;
    var all := [a, b] + rest;
    assert all[1..] == [b] + rest && all[1..][1..] == rest;
    assert Acts(c, s, all) == Acts(c, Act(c, s, a), all[1..]);
  }

  lemma FeedFirst(c: Config, s: Tables, txns: seq<Txn>)
    requires c.Valid() && txns != []
    ensures var n := Apply(c, Apply(c, s, Submit(txns[0], Origin("E", None), 0)), Publish(s.nextSequence));
            Acts(c, s, Feeding(txns, s.nextSequence)) == Acts(c, n, Feeding(txns[1..], s.nextSequence + 1))
  {
    hide Apply, Acts;
    TwoActs(c, s, Do(Submit(txns[0], Origin("E", None), 0)), Do(Publish(s.nextSequence)),
            Feeding(txns[1..], s.nextSequence + 1));
  }

  /** The tables once the first transaction is fed. */
  lemma FedWith(c: Config, s: Tables, txns: seq<Txn>) returns (n: Tables)
    requires c.Valid() && TableInv(s) && s.outbox == [] && txns != [] && DistinctIds(txns)
    requires forall t :: t in txns ==> FindRow(s.rows, t.id).None?
    ensures TableInv(n) && n.outbox == [] && n.customers == s.customers && n.accounts == s.accounts
    ensures Payloads(n.rows) == Payloads(s.rows) + [txns[0]]
    ensures DistinctIds(txns[1..]) && forall t :: t in txns[1..] ==> FindRow(n.rows, t.id).None?
    ensures Acts(c, s, Feeding(txns, s.nextSequence)) == Acts(c, n, Feeding(txns[1..], n.nextSequence))
  {
    hide Compute, TableInv, Apply, FindRow, DistinctIds, Acts, Feeding, Payloads;
    var row := NewRow(txns[0], Compute(c, s, txns[0], 0));
    n := Apply(c, Apply(c, s, Submit(txns[0], Origin("E", None), 0)), Publish(s.nextSequence));
    FeedOne(c, s, txns[0]);
    FeedFirst(c, s, txns);
    RestStaysNew(s, row, txns);
    PayloadAdded(s.rows, row);
  }

  lemma {:induction false} FeedingStores(c: Config, s: Tables, txns: seq<Txn>)
    requires c.Valid() && TableInv(s) && s.outbox == [] && DistinctIds(txns)
    requires forall t :: t in txns ==> FindRow(s.rows, t.id).None?
    ensures var n := Acts(c, s, Feeding(txns, s.nextSequence));
            && TableInv(n) && n.outbox == [] && n.customers == s.customers && n.accounts == s.accounts
            && Payloads(n.rows) == Payloads(s.rows) + txns
    decreases |txns|
  {
    hide Compute, TableInv, Apply, FindRow, DistinctIds, Payloads, NewRow;
    if txns == [] {
      assert Payloads(s.rows) + [] == Payloads(s.rows);
    } else {
      hide Acts, Feeding;
      var n := FedWith(c, s, txns);
      FeedingStores(c, n, txns[1..]);
      assert Payloads(s.rows) + [txns[0]] + txns[1..] == Payloads(s.rows) + txns;
    }
  }

  /** The tables after an empty store was fed these transactions. */
  function StoreOf(c: Config, txns: seq<Txn>): Tables
    requires c.Valid()
  {
    Acts(c, EMPTY_TABLES, Feeding(txns, EMPTY_TABLES.nextSequence))
  }

  lemma StoredPayloads(c: Config, txns: seq<Txn>)
    requires c.Valid() && DistinctIds(txns)
    ensures TableInv(StoreOf(c, txns)) && Payloads(StoreOf(c, txns).rows) == txns
    ensures StoreOf(c, txns).outbox == []
    ensures (forall t :: t in txns ==> AcceptedEvidence(t)) ==> Reachable(c, StoreOf(c, txns))
  {
    hide Acts, Feeding, AcceptedEvidence, TableInv;
    EmptyIsValid();
    FeedingStores(c, EMPTY_TABLES, txns);
    assert [] + txns == txns;
    if forall t :: t in txns ==> AcceptedEvidence(t) {
      FeedingAccepts(txns, EMPTY_TABLES.nextSequence);
    }
  }

  lemma StoreIsValid(c: Config, txns: seq<Txn>, t: Txn)
    requires c.Valid() && DistinctIds(txns) && forall x :: x in txns ==> x.id != t.id
    ensures TableInv(StoreOf(c, txns)) && NotStored(StoreOf(c, txns), t)
    ensures (AcceptedEvidence(t) && forall x :: x in txns ==> AcceptedEvidence(x)) ==> CanMeet(c, StoreOf(c, txns), t)
  {
    hide StoreOf, AcceptedEvidence, Reachable;
    var rows := StoreOf(c, txns).rows;
    StoredPayloads(c, txns);
    MapIndex(rows, PayloadOf());
    forall r | r in rows
      ensures r.id != t.id
    {
      var i :| 0 <= i < |rows| && rows[i] == r;
      assert Payloads(rows)[i] == r.payload && RowOk(r);
    }
  }

  // ---- Accepted figures -------------------------------------------------------------------

  lemma SmallAmount(m: Money)
    requires m <= 10 * LARGEST
    ensures AcceptedAmount(m)
  {
    PowerOfLargest();
    assert Canonical.Pow10(20) == 10 * Canonical.Pow10(19);
  }
}
