/** Deliveries, paid drafting and human review racing on shared alert tables, one atomic step at a time. */
module ReviewProtocol {
  import opened Basics
  import opened Alerts
  import Budget

  datatype Config = Config(alertThreshold: real, sarThreshold: real, clientEnabled: bool, modelName: string,
                           policy: Budget.Policy)
  {
    predicate Valid() {
      0.0 <= alertThreshold <= sarThreshold <= 1.0 && policy.Valid()
    }
  }

  datatype Scored = Scored(txn: string, risk: real, reviewRecommended: bool, evidence: Evidence)

  function DetermineAlertType(e: Evidence): string {
    if "independent_sanctions_screening_match" in e.rules then "sanctions_screening_match"
    else if "potential_structuring_pattern" in e.rules then "potential_structuring"
    else if "pep_with_due_diligence_gap" in e.rules then "enhanced_due_diligence"
    else if "rapid_fan_in_pass_through" in e.rules || "rapid_reciprocal_transfer" in e.rules then "network_flow_review"
    else if "unusual_amount_with_rapid_fan_out" in e.rules then "behavioral_network_review"
    else if e.velocity > 0.05 then "velocity_anomaly"
    else "high_risk_transaction"
  }

  predicate NeedsAlert(c: Config, m: Scored) {
    m.risk >= c.alertThreshold || m.reviewRecommended
  }

  /** The draft an alert is created with: the template once the score reaches the drafting threshold. */
  function InitialDraft(c: Config, f: Facts): Option<Narrative> {
    if f.risk >= c.sarThreshold then Some(TemplateDraft(f.id, f.txn, f.risk, f.evidence)) else None
  }

  function NewAlert(c: Config, m: Scored, id: string, now: real): Alert {
    var facts := Facts(id, m.txn, m.evidence.customer, m.risk,
                       if m.risk < c.alertThreshold then "data_quality_review" else DetermineAlertType(m.evidence),
                       now, m.evidence);
    var eligible := m.risk >= c.sarThreshold;
    Alert(facts, Open, if eligible then DraftPending else NotGenerated, InitialDraft(c, facts),
          if eligible then Some("template") else None, None, if eligible then TemplateReady else NotEligible,
          None, None, None, None, now, 1)
  }

  /** Where one worker stands between two atomic steps. Nothing of this survives a crash. */
  datatype Task =
    | Creating(alert: Alert)
    | Preparing(id: string, txn: string)
    | Calling(id: string, txn: string)
    | Awaiting(id: string, txn: string)
    | Settling(id: string, txn: string, draft: Option<Narrative>, reason: Reason, cancelled: bool)
    | Recording(id: string, txn: string, draft: Option<Narrative>, reason: Reason)

  datatype Call = Call(txn: string, id: string)

  /** Durable tables, volatile workers, and the history of paid model calls. */
  datatype System = System(db: Db, ledger: Budget.Ledger, tasks: map<nat, Task>, calls: seq<Call>)

  datatype Outcome = Completed(text: string) | Failed | Cancelled

  datatype Event =
    | Deliver(worker: nat, message: Scored, id: string, now: real)
    | Advance(worker: nat, now: real, evidenceValid: bool, outcome: Outcome)
    | Crash(worker: nat)
    | ReviewBy(id: string, update: Update, now: real)

  function DenialReason(d: Budget.Decision): Reason {
    match d
    case Granted => AiCompleted
    case AlreadyAttempted => Denied("already_attempted")
    case CircuitOpen => Denied("circuit_open")
    case DailyBudgetExhausted => Denied("daily_budget_exhausted")
    case ConcurrencyLimit => Denied("concurrency_limit")
  }

  function SettledOutcome(t: Task): string
    requires t.Settling?
  {
    if t.cancelled then "cancelled" else if t.draft.Some? then "ai_completed" else "ai_failed_or_timed_out"
  }

  /** Identifiers are fresh UUIDs: in no row and in no alert about to be created. */
  predicate FreshId(s: System, id: string) {
    id !in s.db.rows && forall w :: w in s.tasks && s.tasks[w].Creating? ==> s.tasks[w].alert.facts.id != id
  }

  function Received(c: Config, s: System, w: nat, m: Scored, id: string, now: real): System {
    if w in s.tasks || !FreshId(s, id) then s
    else if !(0.0 <= m.risk <= 1.0) || !NeedsAlert(c, m) || m.txn in s.db.byTxn then s
    else s.(tasks := s.tasks[w := Creating(NewAlert(c, m, id, now))])
  }

  function Create(c: Config, s: System, w: nat, a: Alert): System {
    var db := CreateOnceStep(s.db, a);
    if a.facts.txn !in s.db.byTxn && a.facts.risk >= c.sarThreshold && c.clientEnabled
    then s.(db := db, tasks := s.tasks[w := Preparing(a.facts.id, a.facts.txn)])
    else s.(db := db, tasks := s.tasks - {w})
  }

  function Prepare(c: Config, s: System, w: nat, id: string, txn: string, now: real, evidenceValid: bool): System {
    var d := Budget.Decide(s.ledger, txn, c.policy, now);
    if !evidenceValid then s.(tasks := s.tasks[w := Recording(id, txn, None, InvalidModelEvidence)])
    else if !d.Granted? then s.(tasks := s.tasks[w := Recording(id, txn, None, DenialReason(d))])
    else s.(ledger := Budget.ReserveStep(s.ledger, txn, c.policy, now), tasks := s.tasks[w := Calling(id, txn)])
  }

  function IssueCall(s: System, w: nat, id: string, txn: string): System {
    s.(calls := s.calls + [Call(txn, id)], tasks := s.tasks[w := Awaiting(id, txn)])
  }

  function Returned(id: string, txn: string, outcome: Outcome): Task {
    match outcome
    case Completed(text) => Settling(id, txn, Some(ModelDraft(text)), AiCompleted, false)
    case Failed => Settling(id, txn, None, AiFailedOrTimedOut, false)
    case Cancelled => Settling(id, txn, None, AiFailedOrTimedOut, true)
  }

  function Settle(c: Config, s: System, w: nat, t: Task, now: real): System
    requires t.Settling?
  {
    var ledger := Budget.FinishStep(s.ledger, t.txn, t.draft.Some?, SettledOutcome(t), c.policy, now);
    if t.cancelled then s.(ledger := ledger, tasks := s.tasks - {w})
    else s.(ledger := ledger, tasks := s.tasks[w := Recording(t.id, t.txn, t.draft, t.reason)])
  }

  function Record(c: Config, s: System, w: nat, t: Task, now: real): System
    requires t.Recording?
  {
    var model := if t.draft.Some? then Some(c.modelName) else None;
    s.(db := FinishNarrativeStep(s.db, t.id, t.draft, model, t.reason, now), tasks := s.tasks - {w})
  }

  function Advanced(c: Config, s: System, w: nat, now: real, evidenceValid: bool, outcome: Outcome): System {
    if w !in s.tasks then s
    else
      match s.tasks[w]
      case Creating(a) => Create(c, s, w, a)
      case Preparing(id, txn) => Prepare(c, s, w, id, txn, now, evidenceValid)
      case Calling(id, txn) => IssueCall(s, w, id, txn)
      case Awaiting(id, txn) => s.(tasks := s.tasks[w := Returned(id, txn, outcome)])
      case Settling(_, _, _, _, _) => Settle(c, s, w, s.tasks[w], now)
      case Recording(_, _, _, _) => Record(c, s, w, s.tasks[w], now)
  }

  function Step(c: Config, s: System, e: Event): System {
    match e
    case Deliver(w, m, id, now) => Received(c, s, w, m, id, now)
    case Advance(w, now, valid, outcome) => Advanced(c, s, w, now, valid, outcome)
    case Crash(w) => s.(tasks := s.tasks - {w})
    case ReviewBy(id, u, now) => s.(db := UpdateStep(s.db, id, u, now))
  }

  function Run(c: Config, s: System, events: seq<Event>): System
    decreases |events|
  {
    if events == [] then s else Run(c, Step(c, s, events[0]), events[1..])
  }

  const INITIAL := System(EMPTY_DB, Budget.EMPTY, map[], [])

  // ---- Invariant --------------------------------------------------------------------------

  predicate Called(calls: seq<Call>, txn: string) {
    exists i :: 0 <= i < |calls| && calls[i].txn == txn
  }

  /** The alert is stored, for this transaction, with a draft and a score worth drafting for. */
  predicate Drafted(c: Config, db: Db, id: string, txn: string) {
    && id in db.rows && db.rows[id].facts.txn == txn
    && db.rows[id].narrative.Some? && db.rows[id].facts.risk >= c.sarThreshold
  }

  predicate TaskOk(c: Config, s: System, t: Task) {
    match t
    case Creating(a) =>
      a.facts.id !in s.db.rows && a.revision == 1 && !a.Reviewed() && a.narrative == InitialDraft(c, a.facts)
    case Preparing(id, txn) => Drafted(c, s.db, id, txn)
    case Calling(id, txn) => Drafted(c, s.db, id, txn) && txn in s.ledger.attempts && !Called(s.calls, txn)
    case Awaiting(id, txn) => Drafted(c, s.db, id, txn) && Called(s.calls, txn)
    case Settling(id, txn, draft, _, _) => Drafted(c, s.db, id, txn) && Called(s.calls, txn)
    case Recording(id, txn, draft, _) => Drafted(c, s.db, id, txn) && (draft.Some? ==> Called(s.calls, txn))
  }

  /** Two workers never hold the same new identifier, nor both stand before the same call. */
  predicate Compatible(t: Task, u: Task) {
    && (t.Creating? && u.Creating? ==> t.alert.facts.id != u.alert.facts.id)
    && (t.Calling? && u.Calling? ==> t.txn != u.txn)
  }

  ghost predicate TasksInv(c: Config, s: System) {
    && (forall w :: w in s.tasks ==> TaskOk(c, s, s.tasks[w]))
    && (forall w, v :: w in s.tasks && v in s.tasks && w != v ==> Compatible(s.tasks[w], s.tasks[v]))
  }

  ghost predicate CallsInv(c: Config, s: System) {
    && (forall i, j :: 0 <= i < j < |s.calls| ==> s.calls[i].txn != s.calls[j].txn)
    && (forall k :: k in s.calls ==> Drafted(c, s.db, k.id, k.txn) && k.txn in s.ledger.attempts)
  }

  /** Only a paid call can have replaced the draft an alert was created with. */
  predicate DraftOk(c: Config, s: System, a: Alert) {
    a.narrative == InitialDraft(c, a.facts) || Called(s.calls, a.facts.txn)
  }

  ghost predicate Inv(c: Config, s: System) {
    && DbInv(s.db) && TasksInv(c, s) && CallsInv(c, s)
    && forall id :: id in s.db.rows ==> DraftOk(c, s, s.db.rows[id])
  }

  /** What a step may only extend: the tables' history, the attempts ever made, the calls ever issued. */
  predicate Later(s: System, n: System) {
    Evolves(s.db, n.db) && s.ledger.attempts.Keys <= n.ledger.attempts.Keys && s.calls <= n.calls
  }

  lemma CalledStays(calls: seq<Call>, later: seq<Call>, txn: string)
    requires calls <= later && Called(calls, txn)
    ensures Called(later, txn)
  {
    var i :| 0 <= i < |calls| && calls[i].txn == txn;
    assert later[i].txn == txn;
  }

  lemma DraftedStays(c: Config, db: Db, later: Db, id: string, txn: string)
    requires Drafted(c, db, id, txn) && Evolves(db, later)
    ensures Drafted(c, later, id, txn)
  {
    assert RowEvolves(db.rows[id], later.rows[id]);
  }

  lemma TaskStays(c: Config, s: System, n: System, t: Task)
    requires TaskOk(c, s, t) && Later(s, n)
    requires t.Creating? ==> t.alert.facts.id !in n.db.rows
    requires t.Calling? ==> !Called(n.calls, t.txn)
    ensures TaskOk(c, n, t)
  {
    hide Drafted, Called, Evolves, InitialDraft;
    if !t.Creating? {
      DraftedStays(c, s.db, n.db, t.id, t.txn);
      if Called(s.calls, t.txn) {
        CalledStays(s.calls, n.calls, t.txn);
      }
    }
  }

  /** A step of worker `w` takes neither the identifier nor the call another worker stands before. */
  ghost predicate Undisturbed(s: System, n: System, w: nat) {
    forall v :: v in s.tasks && v != w ==>
      && (s.tasks[v].Creating? ==> s.tasks[v].alert.facts.id !in n.db.rows)
      && (s.tasks[v].Calling? ==> !Called(n.calls, s.tasks[v].txn))
  }

  lemma SameRowsUndisturbed(c: Config, s: System, n: System, w: nat)
    requires TasksInv(c, s) && n.db.rows.Keys == s.db.rows.Keys && n.calls == s.calls
    ensures Undisturbed(s, n, w)
  {
    hide Called, Drafted, InitialDraft;
    forall v | v in s.tasks && v != w
      ensures (s.tasks[v].Creating? ==> s.tasks[v].alert.facts.id !in n.db.rows)
           && (s.tasks[v].Calling? ==> !Called(n.calls, s.tasks[v].txn))
    {
      assert TaskOk(c, s, s.tasks[v]);
    }
  }

  lemma TasksStay(c: Config, s: System, n: System, w: nat)
    requires TasksInv(c, s) && Later(s, n) && s.tasks - {w} == n.tasks - {w} && Undisturbed(s, n, w)
    requires w in n.tasks ==> TaskOk(c, n, n.tasks[w])
    requires w in n.tasks ==> forall v :: v in s.tasks && v != w ==> Compatible(n.tasks[w], s.tasks[v])
    ensures TasksInv(c, n)
  {
    hide TaskOk, Later, Called;
    forall v | v in n.tasks
      ensures TaskOk(c, n, n.tasks[v])
    {
      if v != w {
        assert v in s.tasks - {w} && (s.tasks - {w})[v] == (n.tasks - {w})[v];
        TaskStays(c, s, n, s.tasks[v]);
      }
    }
    forall u, v | u in n.tasks && v in n.tasks && u != v
      ensures Compatible(n.tasks[u], n.tasks[v])
    {
      assert u != w ==> u in n.tasks - {w} && (s.tasks - {w})[u] == (n.tasks - {w})[u];
      assert v != w ==> v in n.tasks - {w} && (s.tasks - {w})[v] == (n.tasks - {w})[v];
      assert u != w ==> u in s.tasks && s.tasks[u] == n.tasks[u];
      assert v != w ==> v in s.tasks && s.tasks[v] == n.tasks[v];
    }
  }

  lemma CallsStay(c: Config, s: System, n: System)
    requires CallsInv(c, s) && Later(s, n) && n.calls == s.calls
    ensures CallsInv(c, n)
  {
    hide Drafted, Evolves;
    forall k | k in n.calls
      ensures Drafted(c, n.db, k.id, k.txn)
    {
      DraftedStays(c, s.db, n.db, k.id, k.txn);
    }
  }

  lemma DraftsStay(c: Config, s: System, n: System)
    requires forall id :: id in s.db.rows ==> DraftOk(c, s, s.db.rows[id])
    requires n.db == s.db && s.calls <= n.calls
    ensures forall id :: id in n.db.rows ==> DraftOk(c, n, n.db.rows[id])
  {
    forall id | id in n.db.rows
      ensures DraftOk(c, n, n.db.rows[id])
    {
      assert DraftOk(c, s, s.db.rows[id]);
      if Called(s.calls, n.db.rows[id].facts.txn) {
        CalledStays(s.calls, n.calls, n.db.rows[id].facts.txn);
      }
    }
  }

  /** A step that changes neither rows nor calls only has to answer for the worker that takes it. */
  lemma QuietStep(c: Config, s: System, n: System, w: nat)
    requires Inv(c, s) && n.db == s.db && n.calls == s.calls
    requires s.ledger.attempts.Keys <= n.ledger.attempts.Keys && s.tasks - {w} == n.tasks - {w}
    requires w in n.tasks ==> TaskOk(c, n, n.tasks[w])
    requires w in n.tasks ==> forall v :: v in s.tasks && v != w ==> Compatible(n.tasks[w], s.tasks[v])
    ensures Inv(c, n) && Later(s, n)
  {
    hide DbInv, Evolves, TasksInv, CallsInv, TaskOk, Compatible, DraftOk;
    EvolvesIsReflexive(s.db);
    SameRowsUndisturbed(c, s, n, w);
    TasksStay(c, s, n, w);
    CallsStay(c, s, n);
    DraftsStay(c, s, n);
  }

  // ---- One lemma per atomic step ----------------------------------------------------------

  lemma ReceiveKeepsInv(c: Config, s: System, w: nat, m: Scored, id: string, now: real)
    requires Inv(c, s)
    ensures Inv(c, Received(c, s, w, m, id, now)) && Later(s, Received(c, s, w, m, id, now))
  {
    hide DbInv, TasksInv, CallsInv, DraftOk, Drafted, Called;
    var n := Received(c, s, w, m, id, now);
    EvolvesIsReflexive(s.db);
    if n != s {
      assert n.tasks - {w} == s.tasks - {w};
      QuietStep(c, s, n, w);
    }
  }

  lemma CreateKeepsSystem(c: Config, s: System, w: nat)
    requires Inv(c, s) && w in s.tasks && s.tasks[w].Creating?
    ensures var n := Create(c, s, w, s.tasks[w].alert); Inv(c, n) && Later(s, n)
  {
    hide Create, Inv, DbInv, Later, CallsInv, TasksInv, TaskOk, DraftOk, Undisturbed, Compatible;
    var n := Create(c, s, w, s.tasks[w].alert);
    CreatedTaskOk(c, s, w);
    CreateUndisturbed(c, s, w);
    CreateKeepsDrafts(c, s, w);
    CreateFacts(c, s, w);
    CallsStay(c, s, n);
    TasksStay(c, s, n, w);
    InvFromParts(c, n);
  }

  /** Creation moves one worker, to where nobody can be in its way, and issues no call. */
  lemma CreateFacts(c: Config, s: System, w: nat)
    requires w in s.tasks && s.tasks[w].Creating?
    ensures var n := Create(c, s, w, s.tasks[w].alert);
            && n.calls == s.calls && n.tasks - {w} == s.tasks - {w}
            && (w in n.tasks ==> forall v :: v in s.tasks && v != w ==> Compatible(n.tasks[w], s.tasks[v]))
  {
    hide CreateOnceStep;
  }

  lemma InvFromParts(c: Config, s: System)
    requires DbInv(s.db) && TasksInv(c, s) && CallsInv(c, s)
    requires forall id :: id in s.db.rows ==> DraftOk(c, s, s.db.rows[id])
    ensures Inv(c, s)
  {
  }

  lemma InvParts(c: Config, s: System)
    requires Inv(c, s)
    ensures DbInv(s.db) && TasksInv(c, s) && CallsInv(c, s)
    ensures forall id :: id in s.db.rows ==> DraftOk(c, s, s.db.rows[id])
    ensures forall w :: w in s.tasks ==> TaskOk(c, s, s.tasks[w])
  {
    hide DbInv, CallsInv, DraftOk, TaskOk;
  }

  lemma CreatedTaskOk(c: Config, s: System, w: nat)
    requires Inv(c, s) && w in s.tasks && s.tasks[w].Creating?
    ensures var n := Create(c, s, w, s.tasks[w].alert);
            && DbInv(n.db) && Later(s, n) && TasksInv(c, s) && CallsInv(c, s)
            && (w in n.tasks ==> TaskOk(c, n, n.tasks[w]) && n.tasks[w].Preparing?)
  {
    var a := s.tasks[w].alert;
    hide DbInv, Evolves, CallsInv;
    assert TaskOk(c, s, s.tasks[w]);
    CreateKeepsInv(s.db, a);
  }

  lemma CreateUndisturbed(c: Config, s: System, w: nat)
    requires TasksInv(c, s) && w in s.tasks && s.tasks[w].Creating?
    ensures Undisturbed(s, Create(c, s, w, s.tasks[w].alert), w)
  {
    hide Drafted, Called, InitialDraft;
    var n := Create(c, s, w, s.tasks[w].alert);
    forall v | v in s.tasks && v != w
      ensures (s.tasks[v].Creating? ==> s.tasks[v].alert.facts.id !in n.db.rows)
           && (s.tasks[v].Calling? ==> !Called(n.calls, s.tasks[v].txn))
    {
      assert TaskOk(c, s, s.tasks[v]) && Compatible(s.tasks[v], s.tasks[w]);
    }
  }

  lemma CreateKeepsDrafts(c: Config, s: System, w: nat)
    requires Inv(c, s) && w in s.tasks && s.tasks[w].Creating?
    ensures var n := Create(c, s, w, s.tasks[w].alert);
            forall id :: id in n.db.rows ==> DraftOk(c, n, n.db.rows[id])
  {
    hide DbInv, CallsInv, Drafted, Called, InitialDraft;
    var n := Create(c, s, w, s.tasks[w].alert);
    assert TaskOk(c, s, s.tasks[w]);
    forall id | id in n.db.rows
      ensures DraftOk(c, n, n.db.rows[id])
    {
      assert id in s.db.rows ==> DraftOk(c, s, s.db.rows[id]);
    }
  }

  /** Nobody has been called, or stands before a call, for a transaction never attempted. */
  lemma UnattemptedIsUncalled(c: Config, s: System, txn: string)
    requires Inv(c, s) && txn !in s.ledger.attempts
    ensures !Called(s.calls, txn)
    ensures forall v :: v in s.tasks && s.tasks[v].Calling? ==> s.tasks[v].txn != txn
  {
    hide DbInv, Drafted;
    forall v | v in s.tasks && s.tasks[v].Calling?
      ensures s.tasks[v].txn != txn
    {
      assert TaskOk(c, s, s.tasks[v]);
    }
  }

  lemma PrepareKeepsSystem(c: Config, s: System, w: nat, now: real, valid: bool)
    requires Inv(c, s) && w in s.tasks && s.tasks[w].Preparing?
    ensures var n := Prepare(c, s, w, s.tasks[w].id, s.tasks[w].txn, now, valid); Inv(c, n) && Later(s, n)
  {
    hide Inv, Drafted, Called, Later;
    var n := Prepare(c, s, w, s.tasks[w].id, s.tasks[w].txn, now, valid);
    TaskFacts(c, s, w);
    assert n.tasks - {w} == s.tasks - {w};
    if n.tasks[w].Calling? {
      UnattemptedIsUncalled(c, s, s.tasks[w].txn);
    }
    QuietStep(c, s, n, w);
  }

  lemma TaskFacts(c: Config, s: System, w: nat)
    requires Inv(c, s) && w in s.tasks
    ensures TaskOk(c, s, s.tasks[w])
  {
    hide DbInv, CallsInv, DraftOk, TaskOk;
  }

  lemma CallTaskOk(c: Config, s: System, w: nat)
    requires Inv(c, s) && w in s.tasks && s.tasks[w].Calling?
    ensures var t := s.tasks[w];
            var n := IssueCall(s, w, t.id, t.txn);
            && Drafted(c, s.db, t.id, t.txn) && t.txn in s.ledger.attempts && !Called(s.calls, t.txn)
            && Later(s, n) && TaskOk(c, n, n.tasks[w]) && s.tasks - {w} == n.tasks - {w}
  {
    hide Inv, Drafted, Called, Evolves;
    EvolvesIsReflexive(s.db);
    TaskFacts(c, s, w);
    LastIsCalled(s.calls, Call(s.tasks[w].txn, s.tasks[w].id));
  }

  lemma CallKeepsSystem(c: Config, s: System, w: nat)
    requires Inv(c, s) && w in s.tasks && s.tasks[w].Calling?
    ensures var n := IssueCall(s, w, s.tasks[w].id, s.tasks[w].txn); Inv(c, n) && Later(s, n)
  {
    var t := s.tasks[w];
    var n := IssueCall(s, w, t.id, t.txn);
    hide Inv, DbInv, Later, Drafted, DraftOk, Undisturbed, CallsInv, TasksInv, Called, TaskOk;
    InvParts(c, s);
    CallTaskOk(c, s, w);
    CallUndisturbed(c, s, w);
    CallExtends(c, s, n, Call(t.txn, t.id));
    DraftsStay(c, s, n);
    TasksStay(c, s, n, w);
    InvFromParts(c, n);
  }

  lemma LastIsCalled(calls: seq<Call>, k: Call)
    ensures Called(calls + [k], k.txn)
  {
    assert (calls + [k])[|calls|].txn == k.txn;
  }

  lemma CallUndisturbed(c: Config, s: System, w: nat)
    requires TasksInv(c, s) && w in s.tasks && s.tasks[w].Calling?
    ensures Undisturbed(s, IssueCall(s, w, s.tasks[w].id, s.tasks[w].txn), w)
  {
    hide Drafted, InitialDraft;
    var n := IssueCall(s, w, s.tasks[w].id, s.tasks[w].txn);
    forall v | v in s.tasks && v != w
      ensures (s.tasks[v].Creating? ==> s.tasks[v].alert.facts.id !in n.db.rows)
           && (s.tasks[v].Calling? ==> !Called(n.calls, s.tasks[v].txn))
    {
      assert TaskOk(c, s, s.tasks[v]) && Compatible(s.tasks[v], s.tasks[w]);
    }
  }

  lemma CallExtends(c: Config, s: System, n: System, k: Call)
    requires CallsInv(c, s) && n.db == s.db && n.ledger == s.ledger && n.calls == s.calls + [k]
    requires Drafted(c, s.db, k.id, k.txn) && k.txn in s.ledger.attempts && !Called(s.calls, k.txn)
    ensures CallsInv(c, n)
  {
    hide Drafted;
    forall i, j | 0 <= i < j < |n.calls|
      ensures n.calls[i].txn != n.calls[j].txn
    {
      assert n.calls[i] == s.calls[i];
    }
  }

  lemma AwaitKeepsSystem(c: Config, s: System, w: nat, outcome: Outcome)
    requires Inv(c, s) && w in s.tasks && s.tasks[w].Awaiting?
    ensures var n := s.(tasks := s.tasks[w := Returned(s.tasks[w].id, s.tasks[w].txn, outcome)]);
            Inv(c, n) && Later(s, n)
  {
    hide Inv, Drafted, Called, Later;
    var n := s.(tasks := s.tasks[w := Returned(s.tasks[w].id, s.tasks[w].txn, outcome)]);
    TaskFacts(c, s, w);
    assert n.tasks - {w} == s.tasks - {w};
    QuietStep(c, s, n, w);
  }

  lemma SettleKeepsSystem(c: Config, s: System, w: nat, now: real)
    requires Inv(c, s) && w in s.tasks && s.tasks[w].Settling?
    ensures var n := Settle(c, s, w, s.tasks[w], now); Inv(c, n) && Later(s, n)
  {
    hide Inv, Drafted, Called, Later;
    var n := Settle(c, s, w, s.tasks[w], now);
    TaskFacts(c, s, w);
    assert n.tasks - {w} == s.tasks - {w};
    QuietStep(c, s, n, w);
  }

  lemma RecordKeepsSystem(c: Config, s: System, w: nat, now: real)
    requires Inv(c, s) && w in s.tasks && s.tasks[w].Recording?
    ensures var n := Record(c, s, w, s.tasks[w], now); Inv(c, n) && Later(s, n)
  {
    var t := s.tasks[w];
    var n := Record(c, s, w, t, now);
    RecordKeepsDrafts(c, s, w, now);
    RecordKeepsRows(c, s, w, now);
    assert n.tasks - {w} == s.tasks - {w};
    hide Inv, DbInv, Evolves, CallsInv, TasksInv, DraftOk, FinishNarrativeStep;
    InvParts(c, s);
    SameRowsUndisturbed(c, s, n, w);
    TasksStay(c, s, n, w);
    CallsStay(c, s, n);
    InvFromParts(c, n);
  }

  lemma RecordKeepsRows(c: Config, s: System, w: nat, now: real)
    requires Inv(c, s) && w in s.tasks && s.tasks[w].Recording?
    ensures var n := Record(c, s, w, s.tasks[w], now);
            DbInv(n.db) && Evolves(s.db, n.db) && n.db.rows.Keys == s.db.rows.Keys
  {
    var t := s.tasks[w];
    hide DbInv, Evolves, CallsInv, DraftOk, WithNarrative;
    FinishKeepsInv(s.db, t.id, t.draft, if t.draft.Some? then Some(c.modelName) else None, t.reason, now);
    assert TaskOk(c, s, t);
  }

  lemma RecordKeepsDrafts(c: Config, s: System, w: nat, now: real)
    requires Inv(c, s) && w in s.tasks && s.tasks[w].Recording?
    ensures var n := Record(c, s, w, s.tasks[w], now);
            forall id :: id in n.db.rows ==> DraftOk(c, n, n.db.rows[id])
  {
    hide DbInv, CallsInv, Called, InitialDraft;
    var n := Record(c, s, w, s.tasks[w], now);
    assert TaskOk(c, s, s.tasks[w]);
    forall id | id in n.db.rows
      ensures DraftOk(c, n, n.db.rows[id])
    {
      assert DraftOk(c, s, s.db.rows[id]);
    }
  }

  lemma ReviewKeepsDrafts(c: Config, s: System, id: string, u: Update, now: real)
    requires Inv(c, s)
    ensures var n := s.(db := UpdateStep(s.db, id, u, now));
            && n.db.rows.Keys == s.db.rows.Keys
            && forall x :: x in n.db.rows ==> DraftOk(c, n, n.db.rows[x])
  {
    hide DbInv, TasksInv, CallsInv, Called, InitialDraft;
    var n := s.(db := UpdateStep(s.db, id, u, now));
    forall x | x in n.db.rows
      ensures DraftOk(c, n, n.db.rows[x])
    {
      assert DraftOk(c, s, s.db.rows[x]);
    }
  }

  lemma AllTasksStay(c: Config, s: System, n: System)
    requires TasksInv(c, s) && Later(s, n) && n.tasks == s.tasks && n.calls == s.calls
    requires n.db.rows.Keys == s.db.rows.Keys
    ensures TasksInv(c, n)
  {
    hide Evolves, Drafted, Called, InitialDraft;
    forall w | w in s.tasks
      ensures TaskOk(c, n, s.tasks[w])
    {
      assert TaskOk(c, s, s.tasks[w]);
      TaskStays(c, s, n, s.tasks[w]);
    }
  }

  lemma ReviewKeepsSystem(c: Config, s: System, id: string, u: Update, now: real)
    requires Inv(c, s)
    ensures var n := s.(db := UpdateStep(s.db, id, u, now)); Inv(c, n) && Later(s, n)
  {
    hide Inv, DbInv, Evolves, CallsInv, TasksInv, DraftOk, UpdateStep;
    var n := s.(db := UpdateStep(s.db, id, u, now));
    InvParts(c, s);
    UpdateKeepsInv(s.db, id, u, now);
    ReviewKeepsDrafts(c, s, id, u, now);
    CallsStay(c, s, n);
    AllTasksStay(c, s, n);
    InvFromParts(c, n);
  }

  lemma StepKeepsInv(c: Config, s: System, e: Event)
    requires Inv(c, s)
    ensures Inv(c, Step(c, s, e)) && Later(s, Step(c, s, e))
  {
    hide Inv, Later, Received, Create, Prepare, IssueCall, Returned, Settle, Record, UpdateStep;
    match e
    case Deliver(w, m, id, now) => ReceiveKeepsInv(c, s, w, m, id, now);
    case Advance(w, now, valid, outcome) =>
      if w !in s.tasks {
        NothingChanges(c, s);
      } else {
        match s.tasks[w]
        case Creating(_) => CreateKeepsSystem(c, s, w);
        case Preparing(_, _) => PrepareKeepsSystem(c, s, w, now, valid);
        case Calling(_, _) => CallKeepsSystem(c, s, w);
        case Awaiting(_, _) => AwaitKeepsSystem(c, s, w, outcome);
        case Settling(_, _, _, _, _) => SettleKeepsSystem(c, s, w, now);
        case Recording(_, _, _, _) => RecordKeepsSystem(c, s, w, now);
      }
    case Crash(w) => CrashKeepsSystem(c, s, w);
    case ReviewBy(id, u, now) => ReviewKeepsSystem(c, s, id, u, now);
  }

  lemma NothingChanges(c: Config, s: System)
    ensures Later(s, s)
  {
    EvolvesIsReflexive(s.db);
  }

  lemma CrashKeepsSystem(c: Config, s: System, w: nat)
    requires Inv(c, s)
    ensures var n := s.(tasks := s.tasks - {w}); Inv(c, n) && Later(s, n)
  {
    var n := s.(tasks := s.tasks - {w});
    assert n.tasks - {w} == s.tasks - {w};
    hide Inv, TaskOk, Later;
    QuietStep(c, s, n, w);
  }

  // ---- Runs -------------------------------------------------------------------------------

  lemma LaterIsTransitive(a: System, b: System, d: System)
    requires Later(a, b) && Later(b, d)
    ensures Later(a, d)
  {
    hide Evolves;
    EvolvesIsTransitive(a.db, b.db, d.db);
  }

  lemma {:induction false} RunKeepsInv(c: Config, s: System, events: seq<Event>)
    requires Inv(c, s)
    ensures Inv(c, Run(c, s, events)) && Later(s, Run(c, s, events))
    decreases |events|
  {
    hide Inv, Later, Step;
    if events == [] {
      NothingChanges(c, s);
    } else {
      var n := Step(c, s, events[0]);
      StepKeepsInv(c, s, events[0]);
      RunKeepsInv(c, n, events[1..]);
      LaterIsTransitive(s, n, Run(c, n, events[1..]));
    }
  }

  lemma InitialInv(c: Config)
    ensures Inv(c, INITIAL)
  {
  }

  /** Main result: over every interleaving of deliveries, redeliveries, cancellations, crashes and
      reviews, a transaction has at most one alert and at most one paid call; a call is only ever
      issued for a stored alert that has its draft and a committed reservation; a draft other than the
      one an alert was created with is the fruit of such a call. */
  lemma OneAlertOneCall(c: Config, events: seq<Event>)
    ensures var s := Run(c, INITIAL, events);
            && (forall x, y :: x in s.db.rows && y in s.db.rows && s.db.rows[x].facts.txn == s.db.rows[y].facts.txn
                  ==> x == y)
            && (forall i, j :: 0 <= i < j < |s.calls| ==> s.calls[i].txn != s.calls[j].txn)
            && (forall id :: id in s.db.rows && s.db.rows[id].narrative != InitialDraft(c, s.db.rows[id].facts)
                  ==> Called(s.calls, s.db.rows[id].facts.txn))
  {
    InitialInv(c);
    RunKeepsInv(c, INITIAL, events);
    var s := Run(c, INITIAL, events);
    forall id | id in s.db.rows && s.db.rows[id].narrative != InitialDraft(c, s.db.rows[id].facts)
      ensures Called(s.calls, s.db.rows[id].facts.txn)
    {
      assert DraftOk(c, s, s.db.rows[id]);
    }
  }

  /** The alert a call is issued for, its first draft and its reservation are in the tables. */
  predicate Prepared(c: Config, s: System, k: Call) {
    && k.id in s.db.rows && s.db.rows[k.id].facts.txn == k.txn
    && s.db.rows[k.id].narrative == InitialDraft(c, s.db.rows[k.id].facts)
    && s.db.rows[k.id].narrative.Some? && k.txn in s.ledger.attempts
  }

  /** Only a worker standing before its call issues one. */
  predicate IssuesCall(s: System, e: Event) {
    e.Advance? && e.worker in s.tasks && s.tasks[e.worker].Calling?
  }

  lemma OtherStepsIssueNothing(c: Config, s: System, e: Event)
    requires !IssuesCall(s, e)
    ensures Step(c, s, e).calls == s.calls
  {
    hide CreateOnceStep, FinishNarrativeStep, UpdateStep, NewAlert, FreshId, NeedsAlert;
    hide Budget.Decide, Budget.ReserveStep, Budget.FinishStep, Returned, DenialReason, SettledOutcome, IssueCall;
  }

  lemma CallIsPrepared(c: Config, s: System, e: Event)
    requires Inv(c, s)
    ensures Step(c, s, e).calls == s.calls
            || exists k :: Step(c, s, e).calls == s.calls + [k] && Prepared(c, s, k)
  {
    hide Prepared, Inv, Received, Create, Prepare, Returned, Settle, Record, UpdateStep;
    if IssuesCall(s, e) {
      var t := s.tasks[e.worker];
      CallingIsPrepared(c, s, e.worker);
      assert Step(c, s, e).calls == s.calls + [Call(t.txn, t.id)];
    } else {
      OtherStepsIssueNothing(c, s, e);
    }
  }

  lemma CallingIsPrepared(c: Config, s: System, w: nat)
    requires Inv(c, s) && w in s.tasks && s.tasks[w].Calling?
    ensures Prepared(c, s, Call(s.tasks[w].txn, s.tasks[w].id))
  {
    hide Inv, InitialDraft;
    InvParts(c, s);
    TaskFacts(c, s, w);
    assert DraftOk(c, s, s.db.rows[s.tasks[w].id]);
  }

  /** The state in which a paid call is issued already holds, durably, the alert with the template it
      was created with and the transaction's reservation. */
  lemma CallsComeLast(c: Config, events: seq<Event>, e: Event)
    ensures var s := Run(c, INITIAL, events);
            var n := Step(c, s, e);
            n.calls == s.calls ||
            exists k :: n.calls == s.calls + [k] && Prepared(c, s, k)
  {
    hide Inv, Step;
    InitialInv(c);
    RunKeepsInv(c, INITIAL, events);
    CallIsPrepared(c, Run(c, INITIAL, events), e);
  }

  lemma RowFacts(c: Config, s: System, id: string)
    requires Inv(c, s) && id in s.db.rows
    ensures RowInv(s.db.rows[id], id, s.db.log)
  {
    hide TasksInv, CallsInv, DraftOk, RowInv;
  }

  lemma RowLater(s: System, n: System, id: string)
    requires Later(s, n) && id in s.db.rows
    ensures id in n.db.rows && RowEvolves(s.db.rows[id], n.db.rows[id]) && s.db.log <= n.db.log
  {
    hide RowEvolves;
  }

  /** Main result: every stored alert keeps its identity, score and evidence through any further run,
      its revision counts its audit entries, and two states with the same revision hold the same row. */
  lemma RevisionIdentifiesContent(c: Config, before: seq<Event>, after: seq<Event>, id: string)
    requires id in Run(c, INITIAL, before).db.rows
    ensures var s := Run(c, INITIAL, before);
            var n := Run(c, s, after);
            && id in n.db.rows && n.db.rows[id].facts == s.db.rows[id].facts
            && s.db.rows[id].revision == EntryCount(s.db.log, id)
            && s.db.log <= n.db.log
            && (n.db.rows[id].revision == s.db.rows[id].revision <==> n.db.rows[id] == s.db.rows[id])
  {
    hide Inv, Later, Step;
    var s := Run(c, INITIAL, before);
    InitialInv(c);
    RunKeepsInv(c, INITIAL, before);
    RunKeepsInv(c, s, after);
    RowFacts(c, s, id);
    RowLater(s, Run(c, s, after), id);
  }

  lemma VerdictIsApplied(db: Db, id: string, u: Update, now: real)
    requires u.verdict.Some? && UpdateProblem(db, id, u).None?
    ensures var later := UpdateStep(db, id, u, now);
            && id in later.rows && later.rows[id].narrative == db.rows[id].narrative
            && later.rows[id].review == (if u.verdict.value.Approve? then Approved else Rejected)
  {
  }

  /** Main result: a verdict accepted for the revision a reviewer loaded is a verdict on the draft they
      loaded, whatever completions and edits raced in between: its digest is the only one the audit
      ever records for the alert, and that draft and verdict stay for good. */
  lemma VerdictBindsDraft(c: Config, before: seq<Event>, meanwhile: seq<Event>, id: string, u: Update, now: real,
                          after: seq<Event>)
    requires id in Run(c, INITIAL, before).db.rows
    requires u.verdict.Some? && u.expectedRevision == Run(c, INITIAL, before).db.rows[id].revision
    requires UpdateProblem(Run(c, Run(c, INITIAL, before), meanwhile).db, id, u).None?
    ensures var loaded := Run(c, INITIAL, before);
            var n := Run(c, Step(c, Run(c, loaded, meanwhile), ReviewBy(id, u, now)), after);
            && id in n.db.rows
            && n.db.rows[id].narrative == loaded.db.rows[id].narrative
            && n.db.rows[id].review == (if u.verdict.value.Approve? then Approved else Rejected)
            && ReviewDigests(n.db.log, id) == [Digest(loaded.db.rows[id].narrative)]
  {
    hide Inv, Later, Received, Advanced, UpdateStep, Run;
    var loaded := Run(c, INITIAL, before);
    var s := Run(c, loaded, meanwhile);
    var r := Step(c, s, ReviewBy(id, u, now));
    var n := Run(c, r, after);
    InitialInv(c);
    RunKeepsInv(c, INITIAL, before);
    RunKeepsInv(c, loaded, meanwhile);
    StepKeepsInv(c, s, ReviewBy(id, u, now));
    RunKeepsInv(c, r, after);
    RowLater(loaded, s, id);
    VerdictIsApplied(s.db, id, u, now);
    RowLater(r, n, id);
    RowFacts(c, n, id);
  }

  // ---- A delivery ends in a stored alert --------------------------------------------------

  /** The event is no step, and no crash, of worker `w`. */
  predicate LeavesAlone(e: Event, w: nat) {
    (e.Advance? ==> e.worker != w) && (e.Crash? ==> e.worker != w)
  }

  lemma {:induction false} TaskWaits(c: Config, s: System, w: nat, events: seq<Event>)
    requires w in s.tasks && forall e :: e in events ==> LeavesAlone(e, w)
    ensures w in Run(c, s, events).tasks && Run(c, s, events).tasks[w] == s.tasks[w]
    decreases |events|
  {
    hide CreateOnceStep, FinishNarrativeStep, UpdateStep, NewAlert, FreshId, NeedsAlert, DenialReason;
    if events != [] {
      assert events[0] in events && forall e :: e in events[1..] ==> e in events;
      TaskWaits(c, Step(c, s, events[0]), w, events[1..]);
    }
  }

  lemma StoredStays(s: System, n: System, txn: string)
    requires DbInv(s.db) && DbInv(n.db) && Later(s, n) && txn in s.db.byTxn
    ensures txn in n.db.byTxn
  {
    hide RowsInv;
    var id := s.db.byTxn[txn];
    assert RowEvolves(s.db.rows[id], n.db.rows[id]);
  }

  /** What a delivery to an idle worker leaves to be created: nothing, or the alert it calls for. */
  lemma DeliveryIsTaken(c: Config, s: System, w: nat, m: Scored, id: string, now: real)
    requires w !in s.tasks && FreshId(s, id) && 0.0 <= m.risk <= 1.0
    ensures var n := Step(c, s, Deliver(w, m, id, now));
            if NeedsAlert(c, m) && m.txn !in s.db.byTxn
            then n.db == s.db && w in n.tasks && n.tasks[w] == Creating(NewAlert(c, m, id, now))
            else n == s
  {
  }

  /** Main result: a message that calls for an alert has one stored for its transaction once its worker
      has taken its next step, whatever others did in between; and if nobody else moved, an alert is
      stored exactly if there was one or the message calls for it, and a new one is the one it calls for. */
  lemma DeliveryIsStored(c: Config, s: System, w: nat, m: Scored, id: string, now: real, meanwhile: seq<Event>,
                         step: Event)
    requires Inv(c, s) && w !in s.tasks && FreshId(s, id) && 0.0 <= m.risk <= 1.0
    requires (forall e :: e in meanwhile ==> LeavesAlone(e, w)) && step.Advance? && step.worker == w
    ensures var n := Step(c, Run(c, Step(c, s, Deliver(w, m, id, now)), meanwhile), step);
            && (NeedsAlert(c, m) ==> m.txn in n.db.byTxn)
            && (meanwhile == [] ==> (m.txn in n.db.byTxn <==> m.txn in s.db.byTxn || NeedsAlert(c, m)))
            && (meanwhile == [] && m.txn !in s.db.byTxn && NeedsAlert(c, m) ==>
                  id in n.db.rows && n.db.byTxn[m.txn] == id && n.db.rows[id] == NewAlert(c, m, id, now))
  {
    var taken := Step(c, s, Deliver(w, m, id, now));
    var before := Run(c, taken, meanwhile);
    DeliveryIsTaken(c, s, w, m, id, now);
    StepKeepsInv(c, s, Deliver(w, m, id, now));
    RunKeepsInv(c, taken, meanwhile);
    StepKeepsInv(c, before, step);
    hide Inv, Later, Received, Prepare, IssueCall, Returned, Settle, Record, UpdateStep, NewAlert, NeedsAlert;
    LaterIsTransitive(s, taken, before);
    LaterIsTransitive(s, before, Step(c, before, step));
    InvParts(c, s);
    InvParts(c, Step(c, before, step));
    if m.txn in s.db.byTxn {
      StoredStays(s, Step(c, before, step), m.txn);
    } else if NeedsAlert(c, m) {
      TaskWaits(c, taken, w, meanwhile);
      CreationStores(c, before, w, step);
      NewAlertFacts(c, m, id, now);
    }
  }

  lemma NewAlertFacts(c: Config, m: Scored, id: string, now: real)
    ensures NewAlert(c, m, id, now).facts.id == id && NewAlert(c, m, id, now).facts.txn == m.txn
  {
  }

  lemma CreationStores(c: Config, s: System, w: nat, step: Event)
    requires w in s.tasks && s.tasks[w].Creating? && step.Advance? && step.worker == w
    ensures var a := s.tasks[w].alert;
            var n := Step(c, s, step);
            && a.facts.txn in n.db.byTxn
            && (a.facts.txn !in s.db.byTxn ==>
                  n.db.byTxn[a.facts.txn] == a.facts.id && a.facts.id in n.db.rows && n.db.rows[a.facts.id] == a)
  {
  }
}
