/** At-least-once delivery: the consumer that commits before it acknowledges, and the one dispatcher
    that deletes an outbox row only after its publication is confirmed. */
module Delivery {
  import opened Basics
  import opened Sequences
  import opened Features
  import opened Store

  // ---- Consumer ---------------------------------------------------------------------------

  /** A broker message. One that is not JSON, or is one of the three ingested kinds with data that is no
      object, is unreadable; a JSON body that is itself no object is a case of its own; `None` stands for
      evidence or an entity that fails validation inside the store call. */
  datatype Message =
    | UnreadableMessage
    | NotAnObject
    | TransactionMessage(evidence: Option<Txn>, batchId: Option<string>)
    | EntityMessage(entity: Option<Entity>)
    | OtherMessage

  datatype Disposition = Ack | DeadLetter | Requeue

  /** What the handler decides, given whether the store could be reached at all. */
  function Decide(c: Config, s: Tables, m: Message, reachable: bool, now: int): Disposition
    requires c.Valid()
  {
    match m
    case UnreadableMessage => DeadLetter
    case NotAnObject => Requeue
    case OtherMessage => Ack
    case EntityMessage(e) => if !reachable then Requeue else if e.None? then DeadLetter else Ack
    case TransactionMessage(t, _) =>
      if !reachable then Requeue
      else
        match EvaluateResult(c, s, t, true, now)
        case Ok(_) => Ack
        case Err(StoreBusy) => Requeue
        case Err(_) => DeadLetter
  }

  function HandleStep(c: Config, s: Tables, m: Message, reachable: bool, eventId: string, now: int): Tables
    requires c.Valid()
  {
    if !reachable then s
    else
      match m
      case UnreadableMessage => s
      case NotAnObject => s
      case OtherMessage => s
      case EntityMessage(e) => if e.None? then s else PutEntityStep(s, e.value)
      case TransactionMessage(t, batchId) => EvaluateStep(c, s, t, true, Origin(eventId, batchId), now)
  }

  class EventConsumer {
    const store: FeatureStore

    constructor (store: FeatureStore)
      ensures this.store == store
    {
      this.store := store;
    }

    method ProcessMessage(m: Message, reachable: bool, eventId: string, now: int) returns (d: Disposition)
      requires store.config.Valid()
      modifies store
      ensures d == Decide(store.config, old(store.State()), m, reachable, now)
      ensures store.State() == HandleStep(store.config, old(store.State()), m, reachable, eventId, now)
    {
      match m
      case UnreadableMessage =>
        return DeadLetter;
      case NotAnObject =>
        return Requeue;
      case OtherMessage =>
        return Ack;
      case EntityMessage(e) =>
        if !reachable {
          return Requeue;
        }
        if e.None? {
          return DeadLetter;
        }
        store.PutEntity(e.value);
        return Ack;
      case TransactionMessage(t, batchId) =>
        if !reachable {
          return Requeue;
        }
        var r := store.Evaluate(t, true, Origin(eventId, batchId), now);
        if r.Ok? {
          return Ack;
        }
        return if r.error.StoreBusy? then Requeue else DeadLetter;
    }
  }

  // ---- Dispatcher -------------------------------------------------------------------------

  const BATCH := 100

  /** What the environment does to one outbox row: whether the broker gets the event, whether it
      confirms it, whether the deletion then commits, and whether it is reported as failed. */
  datatype Fate = Fate(delivered: bool, confirmed: bool, committed: bool, raised: bool)

  predicate Through(f: Fate) {
    f.confirmed && f.committed && !f.raised
  }

  /** The row is gone, though the dispatcher may have been told otherwise. */
  predicate Deletes(f: Fate) {
    f.confirmed && f.committed
  }

  predicate Increasing(outbox: seq<OutboxRow>) {
    forall i, j :: 0 <= i < j < |outbox| ==> outbox[i].sequence < outbox[j].sequence
  }

  /** How many of `rows` are published, confirmed and deleted before the first mishap. */
  function Completed(rows: seq<OutboxRow>, fate: nat -> Fate, from: nat): nat
    requires from <= |rows|
    decreases |rows| - from
  {
    if from == |rows| || !Through(fate(from)) then from else Completed(rows, fate, from + 1)
  }

  /** Rows gone after a flush that stops at row `n`: its deletion may have committed all the same. */
  function Gone(rows: seq<OutboxRow>, fate: nat -> Fate, n: nat): nat {
    if n < |rows| && Deletes(fate(n)) then n + 1 else n
  }

  /** The event of the row at which a flush stops, if the broker got it nevertheless. */
  function Leftover(rows: seq<OutboxRow>, fate: nat -> Fate, n: nat): seq<Envelope> {
    if n < |rows| && (fate(n).delivered || fate(n).confirmed) then [rows[n].event] else []
  }

  function EnvelopeOf(): OutboxRow -> Envelope {
    (r: OutboxRow) => r.event
  }

  function Events(rows: seq<OutboxRow>): seq<Envelope> {
    Map(rows, EnvelopeOf())
  }

  lemma {:induction false} DeleteHead(outbox: seq<OutboxRow>)
    requires outbox != [] && Increasing(outbox)
    ensures Filter(outbox, Unpublished(outbox[0].sequence)) == outbox[1..]
  {
    var p := Unpublished(outbox[0].sequence);
    FilterAll(outbox[1..], p);
    assert [] + outbox[1..] == outbox[1..];
  }

  lemma {:induction false} CompletedBounds(rows: seq<OutboxRow>, fate: nat -> Fate, from: nat)
    requires from <= |rows|
    ensures from <= Completed(rows, fate, from) <= |rows|
    decreases |rows| - from
  {
    if from < |rows| && Through(fate(from)) {
      CompletedBounds(rows, fate, from + 1);
    }
  }

  lemma CompletedStep(rows: seq<OutboxRow>, fate: nat -> Fate, i: nat)
    requires i <= |rows|
    ensures i < |rows| && Through(fate(i)) ==> Completed(rows, fate, i) == Completed(rows, fate, i + 1)
    ensures i == |rows| || !Through(fate(i)) ==> Completed(rows, fate, i) == i
  {
  }

  lemma EventsStep(rows: seq<OutboxRow>, i: nat)
    requires i < |rows|
    ensures Events(rows[..i + 1]) == Events(rows[..i]) + [rows[i].event]
  {
    assert rows[..i + 1] == rows[..i] + [rows[i]];
    MapConcat(rows[..i], [rows[i]], EnvelopeOf());
    MapPrepend(rows[i], [], EnvelopeOf());
  }

  class OutboxDispatcher {
    const store: FeatureStore
    /** Everything the broker has received from this dispatcher. */
    var delivered: seq<Envelope>

    constructor (store: FeatureStore)
      ensures this.store == store && delivered == []
    {
      this.store := store;
      delivered := [];
    }

    /** One pass over a batch. A lost confirmation or a deletion reported as failed ends it; the row it
        ends at stays unless its deletion committed. */
    method FlushOutbox(fate: nat -> Fate) returns (r: Result<nat, string>)
      requires Increasing(store.outbox)
      modifies this`delivered, store`outbox
      ensures var rows := Take(old(store.outbox), BATCH);
              var n := Completed(rows, fate, 0);
              && n <= Gone(rows, fate, n) <= |rows| <= |old(store.outbox)|
              && store.outbox == old(store.outbox)[Gone(rows, fate, n)..]
              && delivered == old(delivered) + Events(rows[..n]) + Leftover(rows, fate, n)
              && (r.Ok? <==> n == |rows|) && (r.Ok? ==> r.value == |rows|)
    {
      hide Completed, Events, Increasing, Take, Gone, Through, Deletes, Leftover;
      ghost var start, before := store.outbox, delivered;
      var rows := store.Pending(BATCH);
      TakeIsPrefix(start, rows);
      CompletedBounds(rows, fate, 0);
      NoEvents(rows);
      for i := 0 to |rows|
        invariant Completed(rows, fate, i) == Completed(rows, fate, 0)
        invariant store.outbox == start[i..] && delivered == before + Events(rows[..i])
      {
        FlushStep(start, rows, fate, i);
        var through := DispatchRow(rows[i], fate(i));
        if !through {
          return Err("delivery not confirmed, or store unavailable");
        }
      }
      CompletedStep(rows, fate, |rows|);
      NothingLeft(rows, fate);
      return Ok(|rows|);
    }

    /** The row leaves the outbox exactly when its publication is confirmed and its deletion commits. */
    method DispatchRow(row: OutboxRow, f: Fate) returns (through: bool)
      requires Increasing(store.outbox) && store.outbox != [] && store.outbox[0] == row
      modifies this`delivered, store`outbox
      ensures through == Through(f)
      ensures store.outbox == if Deletes(f) then old(store.outbox)[1..] else old(store.outbox)
      ensures delivered == old(delivered) + (if f.delivered || f.confirmed then [row.event] else [])
    {
      if f.delivered || f.confirmed {
        delivered := delivered + [row.event];
      }
      if !f.confirmed {
        return false;
      }
      if f.committed {
        DeleteHead(store.outbox);
        store.MarkPublished(row.sequence);
      }
      return f.committed && !f.raised;
    }
  }

  /** What a flush leaves behind that stops at row `i`. */
  lemma StopAt(start: seq<OutboxRow>, rows: seq<OutboxRow>, fate: nat -> Fate, i: nat)
    requires i < |rows| <= |start|
    ensures i <= Gone(rows, fate, i) <= |rows|
    ensures start[Gone(rows, fate, i)..] == if Deletes(fate(i)) then start[i + 1..] else start[i..]
    ensures Through(fate(i)) ==> Deletes(fate(i))
    ensures Leftover(rows, fate, i) == if fate(i).delivered || fate(i).confirmed then [rows[i].event] else []
  {
  }

  /** The one row a flush is at: what stays after it, and what has gone out with it. */
  lemma FlushStep(start: seq<OutboxRow>, rows: seq<OutboxRow>, fate: nat -> Fate, i: nat)
    requires i < |rows| && rows <= start && Increasing(start)
    ensures Increasing(start[i..]) && start[i..] != [] && start[i..][0] == rows[i]
    ensures start[i..][1..] == start[i + 1..] && Events(rows[..i + 1]) == Events(rows[..i]) + [rows[i].event]
    ensures Through(fate(i)) ==> Deletes(fate(i)) && (fate(i).delivered || fate(i).confirmed)
    ensures Through(fate(i)) ==> Completed(rows, fate, i + 1) == Completed(rows, fate, i)
    ensures !Through(fate(i)) ==>
              && Completed(rows, fate, i) == i && i <= Gone(rows, fate, i) <= |rows|
              && start[Gone(rows, fate, i)..] == (if Deletes(fate(i)) then start[i + 1..] else start[i..])
              && Leftover(rows, fate, i) == if fate(i).delivered || fate(i).confirmed then [rows[i].event] else []
  {
    hide Completed, Events, Increasing, Gone, Leftover;
    CompletedStep(rows, fate, i);
    EventsStep(rows, i);
    SuffixStep(start, i);
    StopAt(start, rows, fate, i);
  }

  lemma NothingLeft(rows: seq<OutboxRow>, fate: nat -> Fate)
    ensures Gone(rows, fate, |rows|) == |rows| && Leftover(rows, fate, |rows|) == []
  {
  }

  lemma TakeIsPrefix(start: seq<OutboxRow>, rows: seq<OutboxRow>)
    requires rows <= start && |rows| == MinInt(BATCH, |start|)
    ensures rows == Take(start, BATCH)
  {
  }

  lemma SuffixStep(start: seq<OutboxRow>, i: nat)
    requires i < |start| && Increasing(start)
    ensures Increasing(start[i..]) && start[i..][0] == start[i] && start[i..][1..] == start[i + 1..]
  {
  }

  lemma NoEvents(rows: seq<OutboxRow>)
    ensures Events(rows[..0]) == []
  {
  }

  // ---- The whole pipeline, step by step ---------------------------------------------------

  datatype Handling = Received(message: Message) | Handled(message: Message, disposition: Disposition)

  /** Durable tables; the volatile state of the consumer and of the one dispatcher; and histories of
      what was committed, deleted, delivered, acknowledged and dead-lettered. */
  datatype Pipeline = Pipeline(
    tables: Tables, inbox: map<nat, Handling>, batch: seq<OutboxRow>, confirmed: bool,
    committed: seq<OutboxRow>, deleted: nat, delivered: seq<Envelope>,
    acked: seq<Message>, deadLettered: seq<Message>)

  const START := Pipeline(EMPTY_TABLES, map[], [], false, [], 0, [], [], [])

  datatype Step =
    | Receive(tag: nat, message: Message)
    | Handle(tag: nat, reachable: bool, eventId: string, now: int)
    | Settle(tag: nat)
    | Preview(evidence: Option<Txn>, now: int)
    | Fetch
    | Publish(delivered: bool, confirmed: bool)
    | Delete(committed: bool, raised: bool)
    | Crash

  /** Rows a commit appends to the outbox. */
  function Fresh(before: Tables, after: Tables): seq<OutboxRow> {
    if |after.outbox| > |before.outbox| then after.outbox[|before.outbox|..] else []
  }

  function AfterHandle(c: Config, p: Pipeline, tag: nat, reachable: bool, eventId: string, now: int): Pipeline
    requires c.Valid()
  {
    if tag !in p.inbox || !p.inbox[tag].Received? then p
    else
      var m := p.inbox[tag].message;
      var tables := HandleStep(c, p.tables, m, reachable, eventId, now);
      p.(tables := tables, committed := p.committed + Fresh(p.tables, tables),
         inbox := p.inbox[tag := Handled(m, Decide(c, p.tables, m, reachable, now))])
  }

  /** A requeued message simply leaves the inbox; the broker may deliver it again. */
  function AfterSettle(p: Pipeline, tag: nat): Pipeline {
    if tag !in p.inbox || !p.inbox[tag].Handled? then p
    else
      var m := p.inbox[tag].message;
      var q := p.(inbox := p.inbox - {tag});
      match p.inbox[tag].disposition
      case Ack => q.(acked := p.acked + [m])
      case DeadLetter => q.(deadLettered := p.deadLettered + [m])
      case Requeue => q
  }

  function AfterPublish(p: Pipeline, delivered: bool, confirmed: bool): Pipeline {
    if p.batch == [] || p.confirmed then p
    else
      var q := if delivered || confirmed then p.(delivered := p.delivered + [p.batch[0].event]) else p;
      if confirmed then q.(confirmed := true) else q.(batch := [])
  }

  /** The deletion may fail before it commits, or be reported as failed after it did. */
  function AfterDelete(p: Pipeline, committed: bool, raised: bool): Pipeline {
    if p.batch == [] || !p.confirmed then p
    else
      var q := if committed
               then p.(tables := MarkPublishedStep(p.tables, p.batch[0].sequence), deleted := p.deleted + 1)
               else p;
      q.(confirmed := false, batch := if committed && !raised then p.batch[1..] else [])
  }

  function Next(c: Config, p: Pipeline, step: Step): Pipeline
    requires c.Valid()
  {
    match step
    case Receive(tag, m) => if tag in p.inbox then p else p.(inbox := p.inbox[tag := Received(m)])
    case Handle(tag, reachable, eventId, now) => AfterHandle(c, p, tag, reachable, eventId, now)
    case Settle(tag) => AfterSettle(p, tag)
    case Preview(t, now) => p.(tables := EvaluateStep(c, p.tables, t, false, Origin("", None), now))
    case Fetch => if p.batch == [] then p.(batch := Take(p.tables.outbox, BATCH), confirmed := false) else p
    case Publish(delivered, confirmed) => AfterPublish(p, delivered, confirmed)
    case Delete(committed, raised) => AfterDelete(p, committed, raised)
    case Crash => p.(inbox := map[], batch := [], confirmed := false)
  }

  function Run(c: Config, p: Pipeline, steps: seq<Step>): Pipeline
    requires c.Valid()
    decreases |steps|
  {
    if steps == [] then p else Run(c, Next(c, p, steps[0]), steps[1..])
  }

  // ---- Invariant --------------------------------------------------------------------------

  /** Every committed event belongs to the row committed with it, in the same order. */
  ghost predicate CommitInv(c: Config, p: Pipeline) {
    && TableInv(p.tables)
    && |p.committed| == |p.tables.rows|
    && (forall i :: 0 <= i < |p.committed| ==> EventOf(p.committed[i], p.tables.rows[i]))
    && Increasing(p.committed)
    && (forall r :: r in p.committed ==> r.sequence < p.tables.nextSequence)
    && p.deleted <= |p.committed| && p.tables.outbox == p.committed[p.deleted..]
    && |p.tables.outbox| <= c.maxOutbox
  }

  predicate EventOf(o: OutboxRow, r: Row) {
    o.txnId == r.id && o.event.data == r.result
  }

  /** The broker has received exactly the first `k` committed events, each at least once. */
  ghost predicate DeliveredExactly(p: Pipeline, k: nat) {
    && k <= |p.committed|
    && (forall e :: e in p.delivered ==> exists i :: 0 <= i < k && p.committed[i].event == e)
    && (forall i :: 0 <= i < k ==> p.committed[i].event in p.delivered)
  }

  ghost predicate DispatchInv(p: Pipeline) {
    && p.batch <= p.tables.outbox
    && (p.confirmed ==> p.batch != [] && DeliveredExactly(p, p.deleted + 1))
    && (DeliveredExactly(p, p.deleted) || DeliveredExactly(p, p.deleted + 1))
  }

  /** A snapshot of exactly this evidence is stored. */
  ghost predicate Stored(s: Tables, t: Txn) {
    exists r :: r in s.rows && r.id == t.id && r.fingerprint == Digest(t)
  }

  /** Other evidence is stored under the same identifier. */
  ghost predicate Conflicting(s: Tables, t: Txn) {
    exists r :: r in s.rows && r.id == t.id && r.fingerprint != Digest(t)
  }

  /** Acknowledged means stored; dead-lettered means invalid or in conflict. What cannot be read is
      dead-lettered, but what can be and is no object is not: it goes back to the queue. */
  ghost predicate Justified(s: Tables, m: Message, d: Disposition) {
    && (m.TransactionMessage? ==>
          && (d.Ack? ==> m.evidence.Some? && Stored(s, m.evidence.value))
          && (d.DeadLetter? ==> m.evidence.None? || Conflicting(s, m.evidence.value)))
    && (m.UnreadableMessage? ==> d.DeadLetter?) && (m.NotAnObject? ==> d.Requeue?)
  }

  ghost predicate SettlementInv(p: Pipeline) {
    && (forall tag :: tag in p.inbox && p.inbox[tag].Handled?
          ==> Justified(p.tables, p.inbox[tag].message, p.inbox[tag].disposition))
    && (forall m :: m in p.acked ==> Justified(p.tables, m, Ack))
    && (forall m :: m in p.deadLettered ==> Justified(p.tables, m, DeadLetter))
  }

  ghost predicate Inv(c: Config, p: Pipeline) {
    CommitInv(c, p) && DispatchInv(p) && SettlementInv(p)
  }

  lemma StartInv(c: Config)
    requires c.Valid()
    ensures Inv(c, START)
  {
    assert DeliveredExactly(START, 0);
  }

  // ---- Handling ---------------------------------------------------------------------------

  lemma JustifiedStays(s: Tables, n: Tables, m: Message, d: Disposition)
    requires Justified(s, m, d) && s.rows <= n.rows
    ensures Justified(n, m, d)
  {
    assert forall r :: r in s.rows ==> r in n.rows;
  }

  /** An evaluation appends one row and its event together, or changes nothing. */
  lemma EvaluateEffect(c: Config, s: Tables, raw: Option<Txn>, persist: bool, o: Origin, now: int)
    requires c.Valid() && TableInv(s)
    ensures var n := EvaluateStep(c, s, raw, persist, o, now);
            || n == s
            || (&& persist && raw.Some? && |s.outbox| < c.maxOutbox
                && (exists r: Row, e: Envelope ::
                      && n.rows == s.rows + [r] && n.outbox == s.outbox + [OutboxRow(s.nextSequence, r.id, e)]
                      && e.data == r.result && r.fingerprint == Digest(raw.value))
                && n.nextSequence == s.nextSequence + 1)
    ensures EvaluateStep(c, s, raw, persist, o, now) != s ==> FindRow(s.rows, raw.value.id).None?
  {
    hide Compute;
    var n := EvaluateStep(c, s, raw, persist, o, now);
    if n != s {
      var result := Compute(c, s, raw.value, now);
      var r, e := NewRow(raw.value, result), NewEnvelope(result, o);
      assert n.rows == s.rows + [r] && n.outbox == s.outbox + [OutboxRow(s.nextSequence, r.id, e)];
    }
  }

  /** A call, preview or not, is refused as a conflict exactly when other evidence is stored under the
      identifier, and answers with what is stored exactly when its own is; it writes exactly when it
      persists new evidence with room in the outbox. */
  lemma OnlyNewEvidenceIsWritten(c: Config, s: Tables, raw: Option<Txn>, persist: bool, o: Origin, now: int)
    requires c.Valid() && TableInv(s)
    ensures var r := EvaluateResult(c, s, raw, persist, now);
            && (r == Err(ReplayConflict) <==> raw.Some? && Conflicting(s, raw.value))
            && (raw.Some? && Stored(s, raw.value) ==>
                  r.Ok? && exists q :: q in s.rows && q.fingerprint == Digest(raw.value) && r.value == q.result)
            && (r == Err(StoreBusy) <==>
                  && raw.Some? && !Stored(s, raw.value) && !Conflicting(s, raw.value)
                  && persist && |s.outbox| >= c.maxOutbox)
            && (r == Err(InvalidEvidence) <==> raw.None?)
    ensures EvaluateStep(c, s, raw, persist, o, now) != s <==>
              && persist && raw.Some? && !Stored(s, raw.value) && !Conflicting(s, raw.value)
              && |s.outbox| < c.maxOutbox
  {
    hide Compute, NewRow, NewEnvelope;
    if raw.Some? {
      FindRowFinds(s.rows, raw.value.id);
      UniqueRow(s, raw.value.id);
      KnownEvidence(s, raw.value);
    }
    if raw.Some? && EvaluateStep(c, s, raw, persist, o, now) == Saved(s, raw.value, Compute(c, s, raw.value, now), o) {
      assert |EvaluateStep(c, s, raw, persist, o, now).outbox| > |s.outbox|;
    }
  }

  /** An identifier is taken exactly when its own or other evidence is stored under it. */
  lemma KnownEvidence(s: Tables, t: Txn)
    requires TableInv(s)
    ensures FindRow(s.rows, t.id).Some? <==> Stored(s, t) || Conflicting(s, t)
    ensures !(Stored(s, t) && Conflicting(s, t))
  {
    FindRowFinds(s.rows, t.id);
    UniqueRow(s, t.id);
  }

  lemma UniqueRow(s: Tables, id: string)
    requires TableInv(s)
    ensures forall r, q :: r in s.rows && q in s.rows && r.id == q.id ==> r == q
  {
    forall r, q | r in s.rows && q in s.rows && r.id == q.id
      ensures r == q
    {
      var i :| 0 <= i < |s.rows| && s.rows[i] == r;
      var j :| 0 <= j < |s.rows| && s.rows[j] == q;
    }
  }

  /** The disposition is justified by the tables as they stand after the handler's commit. */
  lemma HandleIsJustified(c: Config, s: Tables, m: Message, reachable: bool, eventId: string, now: int)
    requires c.Valid() && TableInv(s)
    ensures Justified(HandleStep(c, s, m, reachable, eventId, now), m, Decide(c, s, m, reachable, now))
  {
    hide Compute;
    if reachable && m.TransactionMessage? && m.evidence.Some? {
      var t := m.evidence.value;
      var n := HandleStep(c, s, m, reachable, eventId, now);
      FindRowFinds(s.rows, t.id);
      if FindRow(s.rows, t.id).None? && |s.outbox| < c.maxOutbox {
        var r := NewRow(t, Compute(c, s, t, now));
        assert n.rows == s.rows + [r];
        assert r in n.rows && r.id == t.id && r.fingerprint == Digest(t);
      }
    }
  }

  lemma CommitStays(c: Config, p: Pipeline, tables: Tables, m: Message, reachable: bool, eventId: string, now: int)
    requires c.Valid() && CommitInv(c, p) && tables == HandleStep(c, p.tables, m, reachable, eventId, now)
    ensures CommitInv(c, p.(tables := tables, committed := p.committed + Fresh(p.tables, tables)))
    ensures p.tables.rows <= tables.rows && p.tables.outbox <= tables.outbox
  {
    hide EvaluateStep;
    var s := p.tables;
    if reachable && m.TransactionMessage? {
      EvaluateEffect(c, s, m.evidence, true, Origin(eventId, m.batchId), now);
      EvaluateKeepsInv(c, s, m.evidence, true, Origin(eventId, m.batchId), now);
      if tables != s {
        var r: Row, e: Envelope :|
          && tables.rows == s.rows + [r] && tables.outbox == s.outbox + [OutboxRow(s.nextSequence, r.id, e)]
          && e.data == r.result && r.fingerprint == Digest(m.evidence.value);
        AppendCommit(c, p, tables, r, OutboxRow(s.nextSequence, r.id, e));
      } else {
        assert p.committed + [] == p.committed;
      }
    } else {
      assert p.committed + [] == p.committed;
      if reachable && m.EntityMessage? && m.entity.Some? {
        PutEntityKeepsInv(s, m.entity.value);
      }
    }
  }

  lemma AppendCommit(c: Config, p: Pipeline, tables: Tables, r: Row, o: OutboxRow)
    requires CommitInv(c, p) && TableInv(tables) && tables.rows == p.tables.rows + [r] && EventOf(o, r)
    requires o.sequence == p.tables.nextSequence && tables.outbox == p.tables.outbox + [o]
    requires tables.nextSequence == p.tables.nextSequence + 1 && |p.tables.outbox| < c.maxOutbox
    ensures Fresh(p.tables, tables) == [o]
    ensures CommitInv(c, p.(tables := tables, committed := p.committed + [o]))
  {
    hide TableInv, EventOf;
    var q := p.(tables := tables, committed := p.committed + [o]);
    assert q.tables.outbox == q.committed[q.deleted..];
    forall i | 0 <= i < |q.committed|
      ensures EventOf(q.committed[i], q.tables.rows[i])
    {
      if i < |p.committed| {
        assert EventOf(p.committed[i], p.tables.rows[i]);
      }
    }
    forall x | x in q.committed
      ensures x.sequence < q.tables.nextSequence
    {
      assert x in p.committed || x == o;
    }
    forall i, j | 0 <= i < j < |q.committed|
      ensures q.committed[i].sequence < q.committed[j].sequence
    {
      assert q.committed[i] in p.committed;
    }
  }

  lemma DeliveredStays(p: Pipeline, q: Pipeline, k: nat)
    requires DeliveredExactly(p, k) && p.committed <= q.committed && q.delivered == p.delivered
    ensures DeliveredExactly(q, k)
  {
    forall e | e in q.delivered
      ensures exists i :: 0 <= i < k && q.committed[i].event == e
    {
      var i :| 0 <= i < k && p.committed[i].event == e;
      assert q.committed[i] == p.committed[i];
    }
  }

  /** More commits leave the dispatcher's promises as they are. */
  lemma DispatchStays(p: Pipeline, q: Pipeline)
    requires DispatchInv(p) && p.committed <= q.committed && p.tables.outbox <= q.tables.outbox
    requires q.delivered == p.delivered && q.deleted == p.deleted
    requires (q.batch == [] && !q.confirmed) || (q.batch == p.batch && q.confirmed == p.confirmed)
    ensures DispatchInv(q)
  {
    hide DeliveredExactly;
    if DeliveredExactly(p, p.deleted) {
      DeliveredStays(p, q, p.deleted);
    }
    if DeliveredExactly(p, p.deleted + 1) {
      DeliveredStays(p, q, p.deleted + 1);
    }
  }

  lemma SettlementStays(p: Pipeline, q: Pipeline)
    requires SettlementInv(p) && p.tables.rows <= q.tables.rows
    requires q.acked == p.acked && q.deadLettered == p.deadLettered
    requires forall tag :: tag in q.inbox && q.inbox[tag].Handled? ==>
               (tag in p.inbox && q.inbox[tag] == p.inbox[tag])
               || Justified(q.tables, q.inbox[tag].message, q.inbox[tag].disposition)
    ensures SettlementInv(q)
  {
    hide Justified;
    forall tag | tag in q.inbox && q.inbox[tag].Handled?
      ensures Justified(q.tables, q.inbox[tag].message, q.inbox[tag].disposition)
    {
      if tag in p.inbox && q.inbox[tag] == p.inbox[tag] {
        JustifiedStays(p.tables, q.tables, q.inbox[tag].message, q.inbox[tag].disposition);
      }
    }
    forall m | m in q.acked
      ensures Justified(q.tables, m, Ack)
    {
      JustifiedStays(p.tables, q.tables, m, Ack);
    }
    forall m | m in q.deadLettered
      ensures Justified(q.tables, m, DeadLetter)
    {
      JustifiedStays(p.tables, q.tables, m, DeadLetter);
    }
  }

  lemma HandleKeepsInv(c: Config, p: Pipeline, tag: nat, reachable: bool, eventId: string, now: int)
    requires c.Valid() && Inv(c, p)
    ensures Inv(c, AfterHandle(c, p, tag, reachable, eventId, now))
  {
    hide CommitInv, DispatchInv, SettlementInv, Justified, HandleStep, Decide, Fresh;
    if tag in p.inbox && p.inbox[tag].Received? {
      var m := p.inbox[tag].message;
      var q := AfterHandle(c, p, tag, reachable, eventId, now);
      CommitStays(c, p, q.tables, m, reachable, eventId, now);
      CommitIgnoresInbox(c, p.(tables := q.tables, committed := q.committed), q);
      DispatchStays(p, q);
      TablesFact(c, p);
      HandleIsJustified(c, p.tables, m, reachable, eventId, now);
      SettlementStays(p, q);
    }
  }

  lemma TablesFact(c: Config, p: Pipeline)
    requires CommitInv(c, p)
    ensures TableInv(p.tables) && Increasing(p.tables.outbox)
    ensures p.deleted <= |p.committed| && p.tables.outbox == p.committed[p.deleted..]
  {
  }

  lemma CommitIgnoresInbox(c: Config, p: Pipeline, q: Pipeline)
    requires CommitInv(c, p) && q.tables == p.tables && q.committed == p.committed && q.deleted == p.deleted
    ensures CommitInv(c, q)
  {
  }

  lemma SettleKeepsInv(c: Config, p: Pipeline, tag: nat)
    requires Inv(c, p)
    ensures Inv(c, AfterSettle(p, tag))
  {
    hide CommitInv, DispatchInv, Justified;
    var q := AfterSettle(p, tag);
    CommitIgnoresInbox(c, p, q);
    DispatchStays(p, q);
  }

  lemma PublishKeepsInv(c: Config, p: Pipeline, delivered: bool, confirmed: bool)
    requires Inv(c, p)
    ensures Inv(c, AfterPublish(p, delivered, confirmed))
  {
    hide CommitInv, SettlementInv;
    var q := AfterPublish(p, delivered, confirmed);
    CommitIgnoresInbox(c, p, q);
    assert SettlementInv(q) by {
      SettlementIgnoresDispatch(p, q);
    }
    TablesFact(c, p);
    if p.batch != [] && !p.confirmed {
      assert p.batch[0] == p.committed[p.deleted];
      if delivered || confirmed {
        HeadDelivered(p, q);
      } else {
        hide DeliveredExactly;
        assert DispatchInv(q) by {
          DispatchStays(p, q);
        }
      }
    }
  }

  lemma SettlementIgnoresDispatch(p: Pipeline, q: Pipeline)
    requires SettlementInv(p) && q.tables.rows == p.tables.rows && q.inbox == p.inbox
    requires q.acked == p.acked && q.deadLettered == p.deadLettered
    ensures SettlementInv(q)
  {
    hide Justified;
    SettlementStays(p, q);
  }

  /** Delivering the oldest undeleted event makes, or keeps, it the last of the delivered prefix. */
  lemma HeadDelivered(p: Pipeline, q: Pipeline)
    requires p.deleted < |p.committed| && q.committed == p.committed
    requires q.delivered == p.delivered + [p.committed[p.deleted].event]
    requires DeliveredExactly(p, p.deleted) || DeliveredExactly(p, p.deleted + 1)
    ensures DeliveredExactly(q, p.deleted + 1)
  {
    forall e | e in q.delivered
      ensures exists i :: 0 <= i < p.deleted + 1 && q.committed[i].event == e
    {
      if e in p.delivered {
        var i :| 0 <= i < p.deleted + 1 && p.committed[i].event == e;
      }
    }
    forall i | 0 <= i < p.deleted + 1
      ensures q.committed[i].event in q.delivered
    {
      if i < p.deleted {
        assert p.committed[i].event in p.delivered;
      } else {
        assert q.delivered[|p.delivered|] == q.committed[i].event;
      }
    }
  }

  lemma DeleteKeepsInv(c: Config, p: Pipeline, committed: bool, raised: bool)
    requires Inv(c, p)
    ensures Inv(c, AfterDelete(p, committed, raised))
  {
    hide SettlementInv, DeliveredExactly;
    var q := AfterDelete(p, committed, raised);
    TablesFact(c, p);
    if p.batch != [] && p.confirmed {
      if committed {
        DeleteHead(p.tables.outbox);
        assert q.tables.outbox == q.committed[q.deleted..];
        DeliveredStays(p, q, p.deleted + 1);
      } else {
        DispatchStays(p, q);
      }
      SettlementIgnoresDispatch(p, q);
    }
  }

  lemma NextKeepsInv(c: Config, p: Pipeline, step: Step)
    requires c.Valid() && Inv(c, p)
    ensures Inv(c, Next(c, p, step))
  {
    hide AfterHandle, AfterSettle, AfterPublish, AfterDelete, CommitInv, DispatchInv, SettlementInv;
    hide Justified, EvaluateStep;
    var q := Next(c, p, step);
    match step
    case Handle(tag, reachable, eventId, now) => HandleKeepsInv(c, p, tag, reachable, eventId, now);
    case Settle(tag) => SettleKeepsInv(c, p, tag);
    case Publish(delivered, confirmed) => PublishKeepsInv(c, p, delivered, confirmed);
    case Delete(committed, raised) => DeleteKeepsInv(c, p, committed, raised);
    case Receive(_, _) =>
      CommitIgnoresInbox(c, p, q);
      DispatchStays(p, q);
      SettlementStays(p, q);
    case Preview(t, now) =>
      TablesFact(c, p);
      EvaluateEffect(c, p.tables, t, false, Origin("", None), now);
    case Fetch =>
      if p.batch == [] {
        CommitIgnoresInbox(c, p, q);
        FetchKeepsDispatch(p);
        SettlementIgnoresDispatch(p, q);
      }
    case Crash =>
      CommitIgnoresInbox(c, p, q);
      DispatchStays(p, q);
      SettlementStays(p, q);
  }

  lemma FetchKeepsDispatch(p: Pipeline)
    requires DispatchInv(p) && p.batch == []
    ensures DispatchInv(p.(batch := Take(p.tables.outbox, BATCH), confirmed := false))
  {
    var q := p.(batch := Take(p.tables.outbox, BATCH), confirmed := false);
    assert DeliveredExactly(p, p.deleted) ==> DeliveredExactly(q, q.deleted);
    assert DeliveredExactly(p, p.deleted + 1) ==> DeliveredExactly(q, q.deleted + 1);
  }

  lemma {:induction false} RunKeepsInv(c: Config, p: Pipeline, steps: seq<Step>)
    requires c.Valid() && Inv(c, p)
    ensures Inv(c, Run(c, p, steps))
    decreases |steps|
  {
    hide Inv, Next;
    if steps != [] {
      NextKeepsInv(c, p, steps[0]);
      RunKeepsInv(c, Next(c, p, steps[0]), steps[1..]);
    }
  }

  // ---- Results over every run -------------------------------------------------------------

  /** Histories and rows only grow, and what they hold never changes. */
  predicate Grows(p: Pipeline, q: Pipeline) {
    && p.tables.rows <= q.tables.rows && p.committed <= q.committed && p.delivered <= q.delivered
    && p.acked <= q.acked && p.deadLettered <= q.deadLettered && p.deleted <= q.deleted
  }

  lemma NextGrows(c: Config, p: Pipeline, step: Step)
    requires c.Valid() && Inv(c, p)
    ensures Grows(p, Next(c, p, step))
  {
    hide CommitInv, DispatchInv, SettlementInv, HandleStep, EvaluateStep, Decide, Fresh;
    match step
    case Handle(tag, reachable, eventId, now) =>
      if tag in p.inbox && p.inbox[tag].Received? {
        var m := p.inbox[tag].message;
        CommitStays(c, p, HandleStep(c, p.tables, m, reachable, eventId, now), m, reachable, eventId, now);
      }
    case Preview(t, now) =>
      TablesFact(c, p);
      EvaluateEffect(c, p.tables, t, false, Origin("", None), now);
    case _ =>
  }

  lemma {:induction false} RunGrows(c: Config, p: Pipeline, steps: seq<Step>)
    requires c.Valid() && Inv(c, p)
    ensures Grows(p, Run(c, p, steps))
    decreases |steps|
  {
    hide Inv, Next;
    if steps != [] {
      NextKeepsInv(c, p, steps[0]);
      NextGrows(c, p, steps[0]);
      RunGrows(c, Next(c, p, steps[0]), steps[1..]);
    }
  }

  lemma CommittedIdsDistinct(c: Config, p: Pipeline)
    requires CommitInv(c, p)
    ensures forall i, j :: 0 <= i < j < |p.committed| ==> p.committed[i].event.data.id != p.committed[j].event.data.id
  {
    forall i, j | 0 <= i < j < |p.committed|
      ensures p.committed[i].event.data.id != p.committed[j].event.data.id
    {
      assert EventOf(p.committed[i], p.tables.rows[i]) && EventOf(p.committed[j], p.tables.rows[j]);
      assert RowOk(p.tables.rows[i]) && RowOk(p.tables.rows[j]);
    }
  }

  lemma RedeliveriesAgree(c: Config, p: Pipeline, k: nat, e: Envelope, f: Envelope)
    requires CommitInv(c, p) && DeliveredExactly(p, k)
    requires e in p.delivered && f in p.delivered && e.data.id == f.data.id
    ensures e == f
  {
    hide CommitInv;
    CommittedIdsDistinct(c, p);
    var i :| 0 <= i < k && p.committed[i].event == e;
    var j :| 0 <= j < k && p.committed[j].event == f;
    assert i < j || j < i || i == j;
  }

  /** Main result: over every interleaving of commits, publications, lost confirmations, failed
      deletions and crashes, the events delivered at least once are the first k committed ones, where
      k is the number of deleted ones or one more, and every redelivery carries the same envelope. */
  lemma DeliveryFollowsCommitOrder(c: Config, steps: seq<Step>)
    requires c.Valid()
    ensures var p := Run(c, START, steps);
            && (exists k :: p.deleted <= k <= p.deleted + 1 && DeliveredExactly(p, k))
            && (forall e, f :: e in p.delivered && f in p.delivered && e.data.id == f.data.id ==> e == f)
  {
    hide DeliveredExactly, CommitInv, SettlementInv;
    var p := Run(c, START, steps);
    StartInv(c);
    RunKeepsInv(c, START, steps);
    var k := if DeliveredExactly(p, p.deleted) then p.deleted else p.deleted + 1;
    assert DeliveredExactly(p, k);
    forall e, f | e in p.delivered && f in p.delivered && e.data.id == f.data.id
      ensures e == f
    {
      RedeliveriesAgree(c, p, k, e, f);
    }
  }

  /** Main result: a transaction message is acknowledged only once a snapshot of exactly its evidence
      is committed, and dead-lettered only if it is invalid or in conflict with what is; every stored
      snapshot has one committed event, which is either pending or deleted after its delivery; the
      pending ones fit the outbox; and nothing stored or committed ever changes afterwards. A body that
      is no object is never settled in either way, however often it is delivered. */
  lemma AcknowledgedMeansStored(c: Config, steps: seq<Step>, more: seq<Step>)
    requires c.Valid()
    ensures var p := Run(c, START, steps);
            && (forall m :: m in p.acked && m.TransactionMessage?
                            ==> m.evidence.Some? && Stored(p.tables, m.evidence.value))
            && (forall m :: m in p.deadLettered && m.TransactionMessage? && m.evidence.Some?
                  ==> Conflicting(p.tables, m.evidence.value))
            && UnreadableMessage !in p.acked && NotAnObject !in p.acked && NotAnObject !in p.deadLettered
            && |p.committed| == |p.tables.rows|
            && (forall i :: 0 <= i < |p.committed| ==> EventOf(p.committed[i], p.tables.rows[i]))
            && p.deleted <= |p.committed| && p.committed == p.committed[..p.deleted] + p.tables.outbox
            && (forall i :: 0 <= i < p.deleted ==> p.committed[i].event in p.delivered)
            && |p.tables.outbox| <= c.maxOutbox
            && Grows(p, Run(c, p, more))
  {
    hide Stored, Conflicting, EventOf, TableInv, Increasing;
    var p := Run(c, START, steps);
    StartInv(c);
    RunKeepsInv(c, START, steps);
    RunGrows(c, p, more);
    forall m | m in p.acked && m.TransactionMessage?
      ensures m.evidence.Some? && Stored(p.tables, m.evidence.value)
    {
      assert Justified(p.tables, m, Ack);
    }
    forall m | m in p.deadLettered && m.TransactionMessage? && m.evidence.Some?
      ensures Conflicting(p.tables, m.evidence.value)
    {
      assert Justified(p.tables, m, DeadLetter);
    }
  }

  // ---- One flush is a run of the protocol -------------------------------------------------

  /** Publish, then delete; after a mishap the dispatcher holds no batch and the rest does nothing. */
  function BatchSteps(fate: nat -> Fate, from: nat, count: nat): seq<Step>
    decreases count
  {
    if count == 0 then []
    else
      [Publish(fate(from).delivered, fate(from).confirmed), Delete(fate(from).committed, fate(from).raised)]
      + BatchSteps(fate, from + 1, count - 1)
  }

  lemma {:induction false} IdleSteps(c: Config, p: Pipeline, fate: nat -> Fate, from: nat, count: nat)
    requires c.Valid() && p.batch == []
    ensures Run(c, p, BatchSteps(fate, from, count)) == p
    decreases count
  {
    if count > 0 {
      TwoSteps(c, p, fate, from, count);
      IdleSteps(c, p, fate, from + 1, count - 1);
    }
  }

  lemma TwoSteps(c: Config, p: Pipeline, fate: nat -> Fate, from: nat, count: nat)
    requires c.Valid() && count > 0
    ensures var f := fate(from);
            Run(c, p, BatchSteps(fate, from, count))
            == Run(c, DispatchOne(p, f), BatchSteps(fate, from + 1, count - 1))
  {
    hide AfterPublish, AfterDelete;
    var steps, rest := BatchSteps(fate, from, count), BatchSteps(fate, from + 1, count - 1);
    assert steps[1..][1..] == rest;
    assert Run(c, p, steps) == Run(c, Next(c, p, steps[0]), steps[1..]);
  }

  /** What a flush of `rows` does to the outbox and to the broker, from row `from` on. */
  predicate Flushed(p: Pipeline, q: Pipeline, rows: seq<OutboxRow>, fate: nat -> Fate, from: nat)
    requires from <= |rows|
  {
    var n := Completed(rows, fate, from);
    && from <= n <= |rows| && Gone(rows, fate, n) - from <= |p.tables.outbox|
    && q.tables.outbox == p.tables.outbox[Gone(rows, fate, n) - from..]
    && q.delivered == p.delivered + Events(rows[from..n]) + Leftover(rows, fate, n)
  }

  function DispatchOne(p: Pipeline, f: Fate): Pipeline {
    AfterDelete(AfterPublish(p, f.delivered, f.confirmed), f.committed, f.raised)
  }

  lemma DispatchOneGoesThrough(p: Pipeline, f: Fate)
    requires p.batch != [] && !p.confirmed && p.batch <= p.tables.outbox && Increasing(p.tables.outbox) && Through(f)
    ensures var q := DispatchOne(p, f);
            && q.tables.outbox == p.tables.outbox[1..] && q.batch == p.batch[1..] && !q.confirmed
            && q.delivered == p.delivered + [p.batch[0].event]
  {
    hide Filter;
    DeleteHead(p.tables.outbox);
  }

  lemma DispatchOneStops(p: Pipeline, f: Fate)
    requires p.batch != [] && !p.confirmed && p.batch <= p.tables.outbox && Increasing(p.tables.outbox) && !Through(f)
    ensures var q := DispatchOne(p, f);
            && q.tables.outbox == (if Deletes(f) then p.tables.outbox[1..] else p.tables.outbox) && q.batch == []
            && q.delivered == p.delivered + (if f.delivered || f.confirmed then [p.batch[0].event] else [])
  {
    hide Filter;
    DeleteHead(p.tables.outbox);
    assert p.delivered + [] == p.delivered;
  }

  lemma OneMoreFlushed(p: Pipeline, q: Pipeline, r: Pipeline, rows: seq<OutboxRow>, fate: nat -> Fate, from: nat)
    requires from < |rows| && Through(fate(from)) && Flushed(q, r, rows, fate, from + 1)
    requires p.tables.outbox != [] && q.tables.outbox == p.tables.outbox[1..]
    requires q.delivered == p.delivered + [rows[from].event]
    ensures Flushed(p, r, rows, fate, from)
  {
    hide Map, Completed;
    CompletedBounds(rows, fate, from + 1);
    CompletedStep(rows, fate, from);
    var n := Completed(rows, fate, from + 1);
    assert rows[from..n] == [rows[from]] + rows[from + 1..n];
    MapPrepend(rows[from], rows[from + 1..n], EnvelopeOf());
    var gone := Gone(rows, fate, n);
    assert p.tables.outbox[1..][gone - (from + 1)..] == p.tables.outbox[gone - from..];
  }

  lemma NoneFlushed(p: Pipeline, q: Pipeline, rows: seq<OutboxRow>, fate: nat -> Fate, from: nat)
    requires from <= |rows| && (from == |rows| || !Through(fate(from)))
    requires Gone(rows, fate, from) - from <= |p.tables.outbox|
    requires q.tables.outbox == p.tables.outbox[Gone(rows, fate, from) - from..]
    requires q.delivered == p.delivered + Leftover(rows, fate, from)
    ensures Flushed(p, q, rows, fate, from)
  {
    hide Map, Completed, Leftover, Gone, Through, Events;
    CompletedStep(rows, fate, from);
    assert rows[from..from] == rows[..0];
    NoEvents(rows);
    assert p.delivered + [] == p.delivered;
  }

  lemma {:induction false} BatchIsFlushed(c: Config, p: Pipeline, rows: seq<OutboxRow>, fate: nat -> Fate, from: nat)
    requires c.Valid() && from <= |rows| && p.batch == rows[from..] && !p.confirmed
    requires p.batch <= p.tables.outbox && Increasing(p.tables.outbox)
    ensures Flushed(p, Run(c, p, BatchSteps(fate, from, |rows| - from)), rows, fate, from)
    decreases |rows| - from
  {
    hide Increasing, Flushed, DispatchOne, Completed, Next, Through;
    if from == |rows| {
      assert p.delivered + [] == p.delivered;
      NoneFlushed(p, p, rows, fate, from);
    } else {
      var q := DispatchOne(p, fate(from));
      TwoSteps(c, p, fate, from, |rows| - from);
      if Through(fate(from)) {
        DispatchOneGoesThrough(p, fate(from));
        TailIncreasing(p.tables.outbox);
        BatchIsFlushed(c, q, rows, fate, from + 1);
        OneMoreFlushed(p, q, Run(c, q, BatchSteps(fate, from + 1, |rows| - (from + 1))), rows, fate, from);
      } else {
        DispatchOneStops(p, fate(from));
        IdleSteps(c, q, fate, from + 1, |rows| - from - 1);
        NoneFlushed(p, q, rows, fate, from);
      }
    }
  }

  lemma TailIncreasing(outbox: seq<OutboxRow>)
    requires outbox != [] && Increasing(outbox)
    ensures Increasing(outbox[1..])
  {
  }

  lemma FlushedFrom(p: Pipeline, f: Pipeline, q: Pipeline, rows: seq<OutboxRow>, fate: nat -> Fate)
    requires Flushed(f, q, rows, fate, 0) && f.tables == p.tables && f.delivered == p.delivered
    ensures Flushed(p, q, rows, fate, 0)
  {
  }

  /** The contract of `FlushOutbox` is what the protocol's own steps do to an idle dispatcher. */
  lemma FlushFollowsProtocol(c: Config, p: Pipeline, fate: nat -> Fate)
    requires c.Valid() && Inv(c, p) && p.batch == []
    ensures var rows := Take(p.tables.outbox, BATCH);
            Flushed(p, Run(c, p, [Fetch] + BatchSteps(fate, 0, |rows|)), rows, fate, 0)
  {
    hide CommitInv, DispatchInv, SettlementInv, Increasing, Flushed, BatchSteps;
    var rows := Take(p.tables.outbox, BATCH);
    var fetched := p.(batch := rows, confirmed := false);
    var rest := BatchSteps(fate, 0, |rows|);
    TablesFact(c, p);
    assert ([Fetch] + rest)[1..] == rest;
    assert Run(c, p, [Fetch] + rest) == Run(c, fetched, rest);
    assert rows[0..] == rows;
    BatchIsFlushed(c, fetched, rows, fate, 0);
    FlushedFrom(p, fetched, Run(c, fetched, rest), rows, fate);
  }
}
