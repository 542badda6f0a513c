/** Where every message and every event ends up: settlement by the consumer, and a drained outbox. */
module Settlement {
  import opened Basics
  import opened Sequences
  import opened Features
  import opened Store
  import opened Delivery

  // ---- One message through the consumer ---------------------------------------------------

  /** The step is none of this message's own, and no crash. */
  predicate LeavesAlone(step: Step, tag: nat) {
    (step.Handle? ==> step.tag != tag) && (step.Settle? ==> step.tag != tag) && !step.Crash?
  }

  lemma {:induction false} MessageWaits(c: Config, p: Pipeline, tag: nat, steps: seq<Step>)
    requires c.Valid() && tag in p.inbox && forall x :: x in steps ==> LeavesAlone(x, tag)
    ensures tag in Run(c, p, steps).inbox && Run(c, p, steps).inbox[tag] == p.inbox[tag]
    decreases |steps|
  {
    hide HandleStep, EvaluateStep, Decide, MarkPublishedStep, Fresh;
    if steps != [] {
      assert steps[0] in steps && forall x :: x in steps[1..] ==> x in steps;
      MessageWaits(c, Next(c, p, steps[0]), tag, steps[1..]);
    }
  }

  /** How a message is to be settled, told from the tables once it is handled. */
  ghost function Due(after: Tables, m: Message, reachable: bool): Disposition {
    match m
    case UnreadableMessage => DeadLetter
    case NotAnObject => Requeue
    case OtherMessage => Ack
    case EntityMessage(e) => if !reachable then Requeue else if e.None? then DeadLetter else Ack
    case TransactionMessage(t, _) =>
      if !reachable then Requeue
      else if t.None? || Conflicting(after, t.value) then DeadLetter
      else if Stored(after, t.value) then Ack
      else Requeue
  }

  /** The customer the account is on file for. */
  function OwnerOf(s: Tables, t: Txn): Option<string> {
    if t.account in s.accounts then Some(s.accounts[t.account].customerId) else None
  }

  /** What handling writes: new evidence with its event, a received entity, or nothing. */
  ghost predicate Writes(c: Config, before: Tables, after: Tables, m: Message, reachable: bool, eventId: string,
                         now: int)
    requires c.Valid()
  {
    match m
    case TransactionMessage(t, batchId) =>
      if !reachable || t.None? || Stored(before, t.value) || Conflicting(before, t.value)
         || |before.outbox| >= c.maxOutbox
      then after == before
      else
        && Stored(after, t.value) && |after.rows| == |before.rows| + 1
        && |after.outbox| == |before.outbox| + 1
        && var event := after.outbox[|before.outbox|].event;
           && event.id == eventId && event.time == now && event.data.transaction == t.value
           && event.data.customerId == OwnerOf(before, t.value)
           && (batchId.Some? && batchId.value != "" ==> event.batchId == batchId)
           && (batchId.None? || batchId.value == "" ==> event.batchId == None)
    case EntityMessage(e) =>
      if !reachable || e.None? then after == before
      else
        && after.rows == before.rows && after.outbox == before.outbox
        && (match e.value
            case CustomerEntity(x) =>
              after.customers == before.customers[x.id := x] && after.accounts == before.accounts
            case AccountEntity(x) =>
              after.accounts == before.accounts[x.id := x] && after.customers == before.customers)
    case _ => after == before
  }

  lemma HandlingWrites(c: Config, s: Tables, m: Message, reachable: bool, eventId: string, now: int)
    requires c.Valid() && TableInv(s)
    ensures Writes(c, s, HandleStep(c, s, m, reachable, eventId, now), m, reachable, eventId, now)
  {
    hide Stored, Conflicting, TableInv;
    if m.TransactionMessage? && reachable {
      var o := Origin(eventId, m.batchId);
      OnlyNewEvidenceIsWritten(c, s, m.evidence, true, o, now);
      if EvaluateStep(c, s, m.evidence, true, o, now) != s {
        NewEvidence(c, s, m.evidence.value, o, now);
      }
    }
  }

  lemma NewEvidence(c: Config, s: Tables, t: Txn, o: Origin, now: int)
    requires c.Valid() && FindRow(s.rows, t.id).None? && |s.outbox| < c.maxOutbox
    ensures var n := EvaluateStep(c, s, Some(t), true, o, now);
            && Stored(n, t) && |n.rows| == |s.rows| + 1 && |n.outbox| == |s.outbox| + 1
            && var event := n.outbox[|s.outbox|].event;
               && event.id == o.eventId && event.time == now && event.data.transaction == t
               && event.data.customerId == OwnerOf(s, t)
               && event.batchId == if o.batchId == Some("") then None else o.batchId
  {
    hide HistoryWindow, NetworkWindows, ComputeFromHistory, ObservedLater;
    var r := NewRow(t, Compute(c, s, t, now));
    assert EvaluateStep(c, s, Some(t), true, o, now).rows == s.rows + [r];
    assert r in s.rows + [r] && r.id == t.id;
  }

  lemma DecisionIsDue(c: Config, s: Tables, m: Message, reachable: bool, eventId: string, now: int)
    requires c.Valid() && TableInv(s)
    ensures Decide(c, s, m, reachable, now) == Due(HandleStep(c, s, m, reachable, eventId, now), m, reachable)
  {
    hide Stored, Conflicting, TableInv, Compute;
    if m.TransactionMessage? && reachable && m.evidence.Some? {
      var t, o := m.evidence.value, Origin(eventId, m.batchId);
      var n := HandleStep(c, s, m, reachable, eventId, now);
      OnlyNewEvidenceIsWritten(c, s, m.evidence, true, o, now);
      KnownEvidence(s, t);
      if n != s {
        NewEvidence(c, s, t, o, now);
        EvaluateKeepsInv(c, s, m.evidence, true, o, now);
        KnownEvidence(n, t);
      }
    }
  }

  /** Main result: whatever other steps come in between, a message that is received, handled and settled is
      acknowledged, dead-lettered or handed back exactly as the tables left by its handling demand: a
      transaction is acknowledged if and only if the store could be reached and its own evidence is stored,
      dead-lettered if and only if it is invalid or in conflict, and handed back if and only if the store
      could not be reached, or the evidence is new and the outbox full. */
  lemma MessageIsSettled(c: Config, p: Pipeline, tag: nat, m: Message, a: seq<Step>, reachable: bool,
                         eventId: string, now: int, b: seq<Step>)
    requires c.Valid() && Inv(c, p) && tag !in p.inbox
    requires forall x :: x in a ==> LeavesAlone(x, tag)
    requires forall x :: x in b ==> LeavesAlone(x, tag)
    ensures var q := Run(c, Next(c, p, Receive(tag, m)), a);
            var h := Next(c, q, Handle(tag, reachable, eventId, now));
            var r := Run(c, h, b);
            var n := Next(c, r, Settle(tag));
            var due := Due(h.tables, m, reachable);
            && tag !in n.inbox && n.tables == r.tables
            && n.acked == r.acked + (if due.Ack? then [m] else [])
            && n.deadLettered == r.deadLettered + (if due.DeadLetter? then [m] else [])
            && Writes(c, q.tables, h.tables, m, reachable, eventId, now)
  {
    hide Inv, Due, Writes, HandleStep, Decide, Fresh, TableInv;
    var received := Next(c, p, Receive(tag, m));
    var q := Run(c, received, a);
    var h := Next(c, q, Handle(tag, reachable, eventId, now));
    NextKeepsInv(c, p, Receive(tag, m));
    RunKeepsInv(c, received, a);
    TablesAreValid(c, q);
    MessageWaits(c, received, tag, a);
    MessageWaits(c, h, tag, b);
    DecisionIsDue(c, q.tables, m, reachable, eventId, now);
    HandlingWrites(c, q.tables, m, reachable, eventId, now);
    var r := Run(c, h, b);
    hide Run;
    assert r.inbox[tag] == Handled(m, Due(h.tables, m, reachable));
    assert r.acked + [] == r.acked && r.deadLettered + [] == r.deadLettered;
  }

  lemma TablesAreValid(c: Config, p: Pipeline)
    requires Inv(c, p)
    ensures TableInv(p.tables)
  {
    hide DispatchInv, SettlementInv, TableInv;
  }

  /** A crash forgets what is in memory and nothing else, and what was stored before it is acknowledged, and
      written no second time, when the broker delivers the message again. */
  lemma RedeliveryAfterCrash(c: Config, p: Pipeline, tag: nat, t: Txn, batchId: Option<string>, eventId: string,
                             now: int)
    requires c.Valid() && Inv(c, p) && Stored(p.tables, t)
    ensures var crashed := Next(c, p, Crash);
            && crashed == Pipeline(p.tables, map[], [], false, p.committed, p.deleted, p.delivered, p.acked,
                                   p.deadLettered)
            && var m := TransactionMessage(Some(t), batchId);
               var handled := Next(c, Next(c, crashed, Receive(tag, m)), Handle(tag, true, eventId, now));
               var n := Next(c, handled, Settle(tag));
               n.tables == p.tables && n.acked == p.acked + [m] && n.deadLettered == p.deadLettered
  {
    hide Inv, Due, Writes, HandleStep, Decide, Fresh, Stored, TableInv;
    var crashed, m := Next(c, p, Crash), TransactionMessage(Some(t), batchId);
    NextKeepsInv(c, p, Crash);
    TablesAreValid(c, p);
    MessageIsSettled(c, crashed, tag, m, [], true, eventId, now, []);
    var received := Next(c, crashed, Receive(tag, m));
    var handled := Next(c, received, Handle(tag, true, eventId, now));
    assert Run(c, received, []) == received && Run(c, handled, []) == handled;
    hide Run, Next;
    StoredIsDue(c, p.tables, handled.tables, t, batchId, eventId, now);
    assert p.deadLettered + [] == p.deadLettered;
  }

  lemma StoredIsDue(c: Config, before: Tables, after: Tables, t: Txn, batchId: Option<string>, eventId: string,
                    now: int)
    requires c.Valid() && TableInv(before) && Stored(before, t)
    requires Writes(c, before, after, TransactionMessage(Some(t), batchId), true, eventId, now)
    ensures after == before && Due(after, TransactionMessage(Some(t), batchId), true).Ack?
  {
    hide Stored, Conflicting, TableInv;
    KnownEvidence(before, t);
  }

  // ---- An undisturbed dispatcher drains the outbox ----------------------------------------

  function Smoothly(): nat -> Fate {
    i => Fate(true, true, true, false)
  }

  /** One pass of the dispatcher in which nothing goes wrong. */
  function PassSteps(rows: seq<OutboxRow>): seq<Step> {
    [Fetch] + BatchSteps(Smoothly(), 0, |rows|)
  }

  function Passes(c: Config, p: Pipeline, k: nat): Pipeline
    requires c.Valid()
    decreases k
  {
    if k == 0 then p else Passes(c, Run(c, p, PassSteps(Take(p.tables.outbox, BATCH))), k - 1)
  }

  lemma {:induction false} AllComplete(rows: seq<OutboxRow>, from: nat)
    requires from <= |rows|
    ensures Completed(rows, Smoothly(), from) == |rows|
    decreases |rows| - from
  {
    if from < |rows| {
      AllComplete(rows, from + 1);
    }
  }

  lemma {:induction false} BatchEnds(c: Config, p: Pipeline, rows: seq<OutboxRow>, from: nat)
    requires c.Valid() && from <= |rows| && p.batch == rows[from..] && !p.confirmed
    requires p.batch <= p.tables.outbox && Increasing(p.tables.outbox)
    ensures Run(c, p, BatchSteps(Smoothly(), from, |rows| - from)).batch == []
    decreases |rows| - from
  {
    hide Increasing, DispatchOne, Next;
    if from == |rows| {
      assert BatchSteps(Smoothly(), from, 0) == [] && p.batch == [];
    } else {
      TwoSteps(c, p, Smoothly(), from, |rows| - from);
      DispatchOneGoesThrough(p, Smoothly()(from));
      TailIncreasing(p.tables.outbox);
      assert rows[from..][1..] == rows[from + 1..];
      BatchEnds(c, DispatchOne(p, Smoothly()(from)), rows, from + 1);
    }
  }

  /** One smooth pass delivers and deletes the oldest events, as many as a batch holds. */
  lemma PassDrains(c: Config, p: Pipeline)
    requires c.Valid() && Inv(c, p) && p.batch == []
    ensures var rows := Take(p.tables.outbox, BATCH);
            var n := Run(c, p, PassSteps(rows));
            && Inv(c, n) && n.batch == [] && n.tables.outbox == p.tables.outbox[|rows|..]
            && n.delivered == p.delivered + Events(rows)
  {
    hide Inv, Increasing, Next, BatchSteps, Completed, Events, Gone, Leftover;
    var rows := Take(p.tables.outbox, BATCH);
    var fetched := Next(c, p, Fetch);
    var steps := BatchSteps(Smoothly(), 0, |rows|);
    FlushFollowsProtocol(c, p, Smoothly());
    AllComplete(rows, 0);
    RunKeepsInv(c, p, PassSteps(rows));
    FetchedFacts(c, p);
    BatchEnds(c, fetched, rows, 0);
    NothingLeft(rows, Smoothly());
    assert rows[0..] == rows && rows[0..|rows|] == rows && PassSteps(rows)[1..] == steps;
    assert Run(c, p, PassSteps(rows)) == Run(c, fetched, steps);
    assert Events(rows[0..|rows|]) == Events(rows);
    assert Run(c, fetched, steps).delivered == p.delivered + Events(rows) + [];
  }

  lemma FetchedFacts(c: Config, p: Pipeline)
    requires c.Valid() && Inv(c, p) && p.batch == []
    ensures var n := Next(c, p, Fetch);
            && n.batch == Take(p.tables.outbox, BATCH) && !n.confirmed && n.tables == p.tables
            && Increasing(p.tables.outbox)
  {
    hide DispatchInv, SettlementInv, Increasing;
    TablesFact(c, p);
  }

  lemma EventsSplit(outbox: seq<OutboxRow>, n: nat)
    requires n <= |outbox|
    ensures Events(outbox) == Events(outbox[..n]) + Events(outbox[n..])
  {
    assert outbox == outbox[..n] + outbox[n..];
    MapConcat(outbox[..n], outbox[n..], EnvelopeOf());
  }

  /** Main result: with no mishap and no new submissions, one pass for every hundred pending events empties
      the outbox, and the broker has received all of them, each once and in order. */
  lemma {:induction false} OutboxDrains(c: Config, p: Pipeline, k: nat)
    requires c.Valid() && Inv(c, p) && p.batch == [] && |p.tables.outbox| <= 100 * k
    ensures var n := Passes(c, p, k);
            n.tables.outbox == [] && n.batch == [] && n.delivered == p.delivered + Events(p.tables.outbox)
    decreases k
  {
    hide Inv, PassSteps, Events, Run;
    if k == 0 {
      NothingPending(p);
    } else {
      var rows := Take(p.tables.outbox, BATCH);
      var n := Run(c, p, PassSteps(rows));
      PassDrains(c, p);
      OutboxDrains(c, n, k - 1);
      EventsSplit(p.tables.outbox, |rows|);
      assert rows == p.tables.outbox[..|rows|];
      assert n.delivered + Events(n.tables.outbox) == p.delivered + (Events(rows) + Events(n.tables.outbox));
    }
  }

  lemma NothingPending(p: Pipeline)
    requires p.tables.outbox == []
    ensures p.delivered + Events(p.tables.outbox) == p.delivered
  {
  }
}
