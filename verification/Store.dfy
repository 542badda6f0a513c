/** Entities, the immutable transaction table, its bounded index windows, and the outbox. */
module Store {
  import opened Basics
  import opened Sequences
  import opened Features

  /** SHA-256 of the canonical evidence, taken to be injective. */
  datatype Digest = Digest(evidence: Txn)

  datatype Snapshot = Snapshot(id: string, features: FeatureSet, historyTruncated: bool, networkTruncated: bool,
                               lateEvent: bool, transaction: Txn, customerId: Option<string>, computedAt: int)

  datatype Row = Row(id: string, account: string, time: int, source: Option<string>, target: Option<string>,
                     fingerprint: Digest, payload: Txn, result: Snapshot)

  /** The event published for a snapshot; `id` is a fresh UUID. */
  datatype Envelope = Envelope(id: string, time: int, batchId: Option<string>, data: Snapshot)

  datatype OutboxRow = OutboxRow(sequence: nat, txnId: string, event: Envelope)

  /** Transactions are listed in insertion order; sequence numbers are never reused. */
  datatype Tables = Tables(customers: map<string, Customer>, accounts: map<string, Account>, rows: seq<Row>,
                           outbox: seq<OutboxRow>, nextSequence: nat)

  datatype Config = Config(engine: Engine, maxHistory: nat, maxNetwork: nat, maxOutbox: nat) {
    predicate Valid() {
      engine.Valid() && maxHistory >= 1 && maxNetwork >= 1 && maxOutbox >= 1
    }
  }

  const EMPTY_TABLES := Tables(map[], map[], [], [], 1)

  datatype Entity = CustomerEntity(customer: Customer) | AccountEntity(account: Account)

  function PutEntityStep(s: Tables, e: Entity): Tables {
    match e
    case CustomerEntity(c) => s.(customers := s.customers[c.id := c])
    case AccountEntity(a) => s.(accounts := s.accounts[a.id := a])
  }

  // ---- Index windows ----------------------------------------------------------------------

  datatype Column = AccountColumn | SourceColumn | TargetColumn

  function Cell(r: Row, c: Column): Option<string> {
    match c
    case AccountColumn => Some(r.account)
    case SourceColumn => r.source
    case TargetColumn => r.target
  }

  /** Byte order on identifiers. */
  predicate LexAtMost(a: string, b: string) {
    a == [] || (b != [] && (a[0] < b[0] || (a[0] == b[0] && LexAtMost(a[1..], b[1..]))))
  }

  /** Listing order of a window: latest event first, ties by identifier. */
  predicate RowFirst(a: Row, b: Row) {
    a.time > b.time || (a.time == b.time && LexAtMost(a.id, b.id))
  }

  function InWindow(c: Column, key: string, start: int, end: int): Row -> bool {
    (r: Row) => Cell(r, c) == Some(key) && start <= r.time < end
  }

  function PayloadOf(): Row -> Txn {
    (r: Row) => r.payload
  }

  /** At most one row beyond the limit is fetched; fetching it is what raises the flag. */
  function Window(rows: seq<Row>, c: Column, key: string, start: int, end: int, limit: nat): (seq<Txn>, bool) {
    var fetched := Take(Sort(Filter(rows, InWindow(c, key, start, end)), RowFirst), limit + 1);
    (Map(Take(fetched, limit), PayloadOf()), |fetched| > limit)
  }

  // ---- Feature computation ----------------------------------------------------------------

  predicate IsTransfer(t: Txn) {
    t.direction == Some(Outbound) && t.counterparty.Some?
  }

  function HistoryWindow(c: Config, rows: seq<Row>, t: Txn): (seq<Txn>, bool) {
    Window(rows, AccountColumn, t.account, t.time - c.engine.WindowDays() * DAY, t.time, c.maxHistory)
  }

  function NetworkWindow(c: Config, rows: seq<Row>, t: Txn, column: Column): (seq<Txn>, bool) {
    Window(rows, column, t.account, t.time - HOUR, t.time, c.maxNetwork)
  }

  function NetworkWindows(c: Config, rows: seq<Row>, t: Txn): (seq<Txn>, bool) {
    if IsTransfer(t) then
      var (paid, paidCapped) := NetworkWindow(c, rows, t, SourceColumn);
      var (received, receivedCapped) := NetworkWindow(c, rows, t, TargetColumn);
      (paid + received, paidCapped || receivedCapped)
    else ([], false)
  }

  predicate ObservedLater(rows: seq<Row>, t: Txn) {
    exists r | r in rows :: r.account == t.account && r.time >= t.time
  }

  function CustomerOf(s: Tables, t: Txn): Option<string> {
    if t.account in s.accounts then Some(s.accounts[t.account].customerId) else None
  }

  /** The customer and account maps handed to the engine: at most the one entry each that applies. */
  function RelevantAccounts(s: Tables, t: Txn): map<string, Account> {
    if t.account in s.accounts then map[t.account := s.accounts[t.account]] else map[]
  }

  function RelevantCustomers(s: Tables, t: Txn): map<string, Customer> {
    var key := if t.account in s.accounts then s.accounts[t.account].customerId else "";
    if key in s.customers then map[s.customers[key].id := s.customers[key]] else map[]
  }

  function Compute(c: Config, s: Tables, t: Txn, now: int): Snapshot
    requires c.Valid()
  {
    var (history, truncated) := HistoryWindow(c, s.rows, t);
    var (network, networkTruncated) := NetworkWindows(c, s.rows, t);
    Snapshot(t.id,
             ComputeFromHistory(c.engine, t, history, RelevantCustomers(s, t), RelevantAccounts(s, t), network),
             truncated, networkTruncated, ObservedLater(s.rows, t), t, CustomerOf(s, t), now)
  }

  // ---- Evaluation -------------------------------------------------------------------------

  datatype EvalError = InvalidEvidence | ReplayConflict | StoreBusy

  function FindRow(rows: seq<Row>, id: string): Option<Row> {
    if rows == [] then None
    else if rows[0].id == id then Some(rows[0])
    else FindRow(rows[1..], id)
  }

  /** Identity of the event to publish and of the batch it belongs to. */
  datatype Origin = Origin(eventId: string, batchId: Option<string>)

  function NewRow(t: Txn, result: Snapshot): Row {
    Row(t.id, t.account, t.time, if IsTransfer(t) then Some(t.account) else None,
        if IsTransfer(t) then t.counterparty else None, Digest(t), t, result)
  }

  function NewEnvelope(result: Snapshot, o: Origin): Envelope {
    Envelope(o.eventId, result.computedAt, if o.batchId == Some("") then None else o.batchId, result)
  }

  /** One commit inserts the immutable row and its outgoing event together. */
  function Saved(s: Tables, t: Txn, result: Snapshot, o: Origin): Tables {
    s.(rows := s.rows + [NewRow(t, result)],
       outbox := s.outbox + [OutboxRow(s.nextSequence, t.id, NewEnvelope(result, o))],
       nextSequence := s.nextSequence + 1)
  }

  function EvaluateResult(c: Config, s: Tables, raw: Option<Txn>, persist: bool, now: int): Result<Snapshot, EvalError>
    requires c.Valid()
  {
    if raw.None? then Err(InvalidEvidence)
    else
      var t := raw.value;
      var existing := FindRow(s.rows, t.id);
      if existing.Some? then
        if existing.value.fingerprint != Digest(t) then Err(ReplayConflict) else Ok(existing.value.result)
      else if persist && |s.outbox| >= c.maxOutbox then Err(StoreBusy)
      else Ok(Compute(c, s, t, now))
  }

  function EvaluateStep(c: Config, s: Tables, raw: Option<Txn>, persist: bool, o: Origin, now: int): Tables
    requires c.Valid()
  {
    var r := EvaluateResult(c, s, raw, persist, now);
    if r.Ok? && persist && FindRow(s.rows, raw.value.id).None? then Saved(s, raw.value, r.value, o) else s
  }

  function Unpublished(sequence: nat): OutboxRow -> bool {
    (r: OutboxRow) => r.sequence != sequence
  }

  function MarkPublishedStep(s: Tables, sequence: nat): Tables {
    s.(outbox := Filter(s.outbox, Unpublished(sequence)))
  }

  class FeatureStore {
    const config: Config
    var customers: map<string, Customer>
    var accounts: map<string, Account>
    var rows: seq<Row>
    var outbox: seq<OutboxRow>
    var nextSequence: nat

    function State(): Tables
      reads this
    {
      Tables(customers, accounts, rows, outbox, nextSequence)
    }

    constructor (config: Config)
      requires config.Valid()
      ensures this.config == config && State() == EMPTY_TABLES
    {
      this.config := config;
      customers, accounts, rows, outbox, nextSequence := map[], map[], [], [], 1;
    }

    /** Limits below one are refused before a store exists. */
    static method Open(config: Config) returns (r: Result<FeatureStore, string>)
      requires config.engine.Valid()
      ensures r.Ok? <==> config.maxHistory >= 1 && config.maxNetwork >= 1 && config.maxOutbox >= 1
      ensures r.Ok? ==> fresh(r.value) && r.value.config == config && r.value.State() == EMPTY_TABLES
    {
      if MinInt(MinInt(config.maxHistory, config.maxNetwork), config.maxOutbox) < 1 {
        return Err("store limits must be positive");
      }
      var s := new FeatureStore(config);
      return Ok(s);
    }

    method PutEntity(e: Entity)
      modifies this
      ensures State() == PutEntityStep(old(State()), e)
    {
      match e
      case CustomerEntity(c) => customers := customers[c.id := c];
      case AccountEntity(a) => accounts := accounts[a.id := a];
    }

    method ComputeSnapshot(t: Txn, now: int) returns (snapshot: Snapshot)
      requires config.Valid()
      ensures snapshot == Compute(config, State(), t, now)
    {
      hide NetworkWindow, HistoryWindow, ComputeFromHistory;
      var (history, truncated) := HistoryWindow(config, rows, t);
      var network: seq<Txn>, networkTruncated := [], false;
      if IsTransfer(t) {
        var columns := [SourceColumn, TargetColumn];
        for i := 0 to 2
          invariant i == 0 ==> network == [] && !networkTruncated
          invariant i == 1 ==> (network, networkTruncated) == NetworkWindow(config, rows, t, SourceColumn)
          invariant i == 2 ==> (network, networkTruncated) == NetworkWindows(config, rows, t)
        {
          var (found, capped) := NetworkWindow(config, rows, t, columns[i]);
          assert i == 0 ==> network + found == found;
          network := network + found;
          networkTruncated := networkTruncated || capped;
        }
      }
      var late := exists r | r in rows :: r.account == t.account && r.time >= t.time;
      snapshot := Snapshot(t.id,
                           ComputeFromHistory(config.engine, t, history, RelevantCustomers(State(), t),
                                              RelevantAccounts(State(), t), network),
                           truncated, networkTruncated, late, t, CustomerOf(State(), t), now);
    }

    method Evaluate(raw: Option<Txn>, persist: bool, o: Origin, now: int) returns (r: Result<Snapshot, EvalError>)
      requires config.Valid()
      modifies this
      ensures State() == EvaluateStep(config, old(State()), raw, persist, o, now)
      ensures r == EvaluateResult(config, old(State()), raw, persist, now)
    {
      if raw.None? {
        return Err(InvalidEvidence);
      }
      var t := raw.value;
      var existing := FindRow(rows, t.id);
      if existing.Some? {
        if Digest(t) != existing.value.fingerprint {
          return Err(ReplayConflict);
        }
        return Ok(existing.value.result);
      }
      if persist && |outbox| >= config.maxOutbox {
        return Err(StoreBusy);
      }
      var result := ComputeSnapshot(t, now);
      if persist {
        Save(t, result, o);
      }
      return Ok(result);
    }

    method Save(t: Txn, result: Snapshot, o: Origin)
      modifies this
      ensures State() == Saved(old(State()), t, result, o)
    {
      var source, target := None, None;
      if IsTransfer(t) {
        source, target := Some(t.account), t.counterparty;
      }
      rows := rows + [Row(t.id, t.account, t.time, source, target, Digest(t), t, result)];
      var event := Envelope(o.eventId, result.computedAt, None, result);
      if o.batchId.Some? && o.batchId.value != "" {
        event := event.(batchId := o.batchId);
      }
      outbox := outbox + [OutboxRow(nextSequence, t.id, event)];
      nextSequence := nextSequence + 1;
    }

    method Pending(limit: nat) returns (batch: seq<OutboxRow>)
      ensures batch <= outbox && |batch| == MinInt(limit, |outbox|)
    {
      batch := Take(outbox, limit);
    }

    method MarkPublished(sequence: nat)
      modifies this`outbox
      ensures State() == MarkPublishedStep(old(State()), sequence)
    {
      outbox := Filter(outbox, Unpublished(sequence));
    }
  }

  // ---- Table invariant --------------------------------------------------------------------

  predicate RowOk(r: Row) {
    r == NewRow(r.payload, r.result) && r.result.id == r.id
  }

  ghost predicate TableInv(s: Tables) {
    && (forall r :: r in s.rows ==> RowOk(r))
    && (forall i, j :: 0 <= i < j < |s.rows| ==> s.rows[i].id != s.rows[j].id)
    && (forall k :: k in s.customers ==> s.customers[k].id == k)
    && (forall k :: k in s.accounts ==> s.accounts[k].id == k)
  }

  lemma {:induction false} FindRowFinds(rows: seq<Row>, id: string)
    ensures FindRow(rows, id).Some? <==> exists r :: r in rows && r.id == id
    ensures FindRow(rows, id).Some? ==> FindRow(rows, id).value in rows && FindRow(rows, id).value.id == id
  {
    if rows != [] {
      FindRowFinds(rows[1..], id);
      assert forall r :: r in rows <==> r == rows[0] || r in rows[1..];
    }
  }

  lemma EvaluateKeepsInv(c: Config, s: Tables, raw: Option<Txn>, persist: bool, o: Origin, now: int)
    requires c.Valid() && TableInv(s)
    ensures TableInv(EvaluateStep(c, s, raw, persist, o, now))
  {
    hide Compute;
    var n := EvaluateStep(c, s, raw, persist, o, now);
    if n != s {
      FindRowFinds(s.rows, raw.value.id);
      assert Compute(c, s, raw.value, now).id == raw.value.id by {
        ComputeIdentity(c, s, raw.value, now);
      }
    }
  }

  lemma ComputeIdentity(c: Config, s: Tables, t: Txn, now: int)
    requires c.Valid()
    ensures Compute(c, s, t, now).id == t.id
  {
  }

  lemma PutEntityKeepsInv(s: Tables, e: Entity)
    requires TableInv(s)
    ensures TableInv(PutEntityStep(s, e))
    ensures PutEntityStep(s, e).rows == s.rows && PutEntityStep(s, e).outbox == s.outbox
  {
  }
}
