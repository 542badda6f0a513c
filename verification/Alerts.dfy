/** Alert rows, their append-only audit log, and the two ways a row changes after its creation. */
module Alerts {
  import opened Basics

  datatype CaseStatus = Open | Investigating | Closed | FalsePositive
  datatype Review = NotGenerated | DraftPending | Approved | Rejected
  datatype Verdict = Approve | Reject

  /** What the scoring event says beyond the score; copied into the alert and never interpreted here. */
  datatype Evidence = Evidence(customer: Option<string>, rules: set<string>, velocity: real, detail: string)

  /** A draft is either the deterministic template built from the alert's facts or accepted model text. */
  datatype Narrative =
    | TemplateDraft(alertId: string, txn: string, risk: real, evidence: Evidence)
    | ModelDraft(text: string)

  /** SHA-256 of the draft text, taken to be injective. */
  datatype Digest = Digest(draft: Option<Narrative>)

  datatype Reason =
    | NotEligible | TemplateReady | InvalidModelEvidence
    | Denied(why: string) | AiCompleted | AiFailedOrTimedOut | ReviewAlreadyCompleted

  /** The facts fixed at creation. */
  datatype Facts = Facts(id: string, txn: string, customer: Option<string>, risk: real, alertType: string,
                         createdAt: real, evidence: Evidence)

  datatype Alert = Alert(
    facts: Facts,
    status: CaseStatus, review: Review, narrative: Option<Narrative>, generatedBy: Option<string>,
    model: Option<string>, reason: Reason, reviewedBy: Option<string>, reviewedAt: Option<real>,
    notes: Option<string>, assignedTo: Option<string>, updatedAt: real, revision: nat)
  {
    predicate Reviewed() {
      review.Approved? || review.Rejected?
    }

    predicate AcceptsDraft() {
      review.DraftPending? && !status.Closed? && !status.FalsePositive?
    }
  }

  datatype Update = Update(expectedRevision: int, actor: string, status: Option<CaseStatus>,
                           notes: Option<string>, assignedTo: Option<string>, verdict: Option<Verdict>)

  datatype Entry =
    | Created(risk: real, alertType: string, review: Review)
    | NarrativeFinished(reason: Reason)
    | Updated(actor: string, changes: Update, previousRevision: nat, revision: nat, reviewed: Option<Digest>)

  datatype AuditRow = AuditRow(alertId: string, entry: Entry)

  /** The alert tables: rows by primary key, the unique transaction index, and the audit log. */
  datatype Db = Db(rows: map<string, Alert>, byTxn: map<string, string>, log: seq<AuditRow>)

  const EMPTY_DB := Db(map[], map[], [])

  // ---- Operations -------------------------------------------------------------------------

  function CreateOnceStep(db: Db, a: Alert): Db {
    if a.facts.txn in db.byTxn then db
    else Db(db.rows[a.facts.id := a], db.byTxn[a.facts.txn := a.facts.id],
            db.log + [AuditRow(a.facts.id, Created(a.facts.risk, a.facts.alertType, a.review))])
  }

  /** The row after a narrative attempt ends with `draft`, or with none. */
  function WithNarrative(a: Alert, draft: Option<Narrative>, model: Option<string>, reason: Reason, now: real): Alert {
    if draft.Some? && a.AcceptsDraft() then
      a.(narrative := draft, generatedBy := Some("openai"), model := model,
         reason := reason, updatedAt := now, revision := a.revision + 1)
    else
      a.(reason := if draft.Some? then ReviewAlreadyCompleted else reason,
         updatedAt := now, revision := a.revision + 1)
  }

  function FinishNarrativeStep(db: Db, id: string, draft: Option<Narrative>, model: Option<string>,
                               reason: Reason, now: real): Db
  {
    if id !in db.rows then db
    else
      var a := WithNarrative(db.rows[id], draft, model, reason, now);
      db.(rows := db.rows[id := a], log := db.log + [AuditRow(id, NarrativeFinished(a.reason))])
  }

  datatype UpdateError = NotFound | StaleRevision | NotPending

  function UpdateProblem(db: Db, id: string, u: Update): Option<UpdateError> {
    if id !in db.rows then Some(NotFound)
    else if u.expectedRevision != db.rows[id].revision then Some(StaleRevision)
    else if u.verdict.Some? && !db.rows[id].review.DraftPending? then Some(NotPending)
    else None
  }

  function Actor(u: Update): string {
    if u.actor == "" then "unknown-investigator" else u.actor
  }

  function Chosen<T>(change: Option<T>, current: Option<T>): Option<T> {
    if change.Some? then change else current
  }

  function WithUpdate(a: Alert, u: Update, now: real): Alert {
    var b := a.(status := if u.status.Some? then u.status.value else a.status,
                notes := Chosen(u.notes, a.notes), assignedTo := Chosen(u.assignedTo, a.assignedTo),
                updatedAt := now, revision := a.revision + 1);
    if u.verdict.None? then b
    else b.(review := if u.verdict.value.Approve? then Approved else Rejected,
            reviewedBy := Some(Actor(u)), reviewedAt := Some(now))
  }

  /** The audit entry of an accepted update; a verdict records the draft it was given on. */
  function UpdateEntry(a: Alert, u: Update): Entry {
    Updated(Actor(u), u, a.revision, a.revision + 1, if u.verdict.Some? then Some(Digest(a.narrative)) else None)
  }

  function UpdateStep(db: Db, id: string, u: Update, now: real): Db {
    if UpdateProblem(db, id, u).Some? then db
    else
      var a := db.rows[id];
      db.(rows := db.rows[id := WithUpdate(a, u, now)], log := db.log + [AuditRow(id, UpdateEntry(a, u))])
  }

  class AlertRepository {
    var rows: map<string, Alert>
    var byTxn: map<string, string>
    var log: seq<AuditRow>

    function State(): Db
      reads this
    {
      Db(rows, byTxn, log)
    }

    constructor ()
      ensures State() == EMPTY_DB
    {
      rows, byTxn, log := map[], map[], [];
    }

    method Audit(id: string, entry: Entry)
      modifies this`log
      ensures log == old(log) + [AuditRow(id, entry)]
    {
      log := log + [AuditRow(id, entry)];
    }

    method CreateOnce(alert: Alert) returns (stored: Alert, created: bool)
      requires DbInv(State()) && (alert.facts.txn in byTxn || alert.facts.id !in rows)
      modifies this
      ensures State() == CreateOnceStep(old(State()), alert)
      ensures created <==> alert.facts.txn !in old(byTxn)
      ensures alert.facts.txn in byTxn && byTxn[alert.facts.txn] in rows && stored == rows[byTxn[alert.facts.txn]]
      ensures created ==> stored == alert
    {
      created := alert.facts.txn !in byTxn;
      if created {
        rows := rows[alert.facts.id := alert];
        byTxn := byTxn[alert.facts.txn := alert.facts.id];
        Audit(alert.facts.id, Created(alert.facts.risk, alert.facts.alertType, alert.review));
      }
      stored := rows[byTxn[alert.facts.txn]];
    }

    method FinishNarrative(id: string, draft: Option<Narrative>, model: Option<string>, reason: Reason, now: real)
      returns (r: Result<Alert, string>)
      modifies this
      ensures State() == FinishNarrativeStep(old(State()), id, draft, model, reason, now)
      ensures r.Ok? <==> id in old(rows)
      ensures r.Ok? ==> r.value == rows[id]
    {
      if id !in rows {
        return Err("no such alert");
      }
      var alert := rows[id];
      var kept, why := draft, reason;
      if kept.Some? && (!alert.review.DraftPending? || alert.status.Closed? || alert.status.FalsePositive?) {
        kept, why := None, ReviewAlreadyCompleted;
      }
      if kept.Some? {
        alert := alert.(narrative := kept, generatedBy := Some("openai"), model := model);
      }
      alert := alert.(reason := why, updatedAt := now);
      alert := alert.(revision := alert.revision + 1);
      rows := rows[id := alert];
      Audit(id, NarrativeFinished(why));
      return Ok(alert);
    }

    method UpdateAlert(id: string, u: Update, now: real) returns (r: Result<Alert, UpdateError>)
      modifies this
      ensures State() == UpdateStep(old(State()), id, u, now)
      ensures r.Err? <==> UpdateProblem(old(State()), id, u).Some?
      ensures r.Err? ==> UpdateProblem(old(State()), id, u) == Some(r.error)
      ensures r.Ok? ==> id in rows && r.value == rows[id]
    {
      if id !in rows {
        return Err(NotFound);
      }
      var alert := rows[id];
      if u.expectedRevision != alert.revision {
        return Err(StaleRevision);
      }
      var actor := if u.actor != "" then u.actor else "unknown-investigator";
      if u.verdict.Some? {
        if !alert.review.DraftPending? {
          return Err(NotPending);
        }
        alert := alert.(reviewedBy := Some(actor), reviewedAt := Some(now));
      }
      var entry := Updated(actor, u, alert.revision, alert.revision + 1, None);
      if u.verdict.Some? {
        entry := entry.(reviewed := Some(Digest(alert.narrative)));
        alert := alert.(review := if u.verdict.value.Approve? then Approved else Rejected);
      }
      if u.status.Some? {
        alert := alert.(status := u.status.value);
      }
      if u.notes.Some? {
        alert := alert.(notes := u.notes);
      }
      if u.assignedTo.Some? {
        alert := alert.(assignedTo := u.assignedTo);
      }
      alert := alert.(updatedAt := now);
      alert := alert.(revision := alert.revision + 1);
      rows := rows[id := alert];
      Audit(id, entry);
      return Ok(alert);
    }
  }

  // ---- What every operation keeps ---------------------------------------------------------

  /** Audit entries of one alert. */
  function EntryCount(log: seq<AuditRow>, id: string): nat {
    if log == [] then 0
    else EntryCount(log[..|log| - 1], id) + (if log[|log| - 1].alertId == id then 1 else 0)
  }

  /** Digests recorded by the reviewing entries of one alert, oldest first. */
  function ReviewDigests(log: seq<AuditRow>, id: string): seq<Digest> {
    if log == [] then []
    else
      var last := log[|log| - 1];
      ReviewDigests(log[..|log| - 1], id)
      + (if last.alertId == id && last.entry.Updated? && last.entry.reviewed.Some? then [last.entry.reviewed.value]
         else [])
  }

  ghost predicate RowInv(a: Alert, id: string, log: seq<AuditRow>) {
    && a.facts.id == id
    && a.revision == EntryCount(log, id)
    && ReviewDigests(log, id) == (if a.Reviewed() then [Digest(a.narrative)] else [])
  }

  ghost predicate RowsInv(db: Db) {
    && (forall id :: id in db.rows ==> RowInv(db.rows[id], id, db.log))
    && (forall id :: id !in db.rows ==> EntryCount(db.log, id) == 0 && ReviewDigests(db.log, id) == [])
  }

  /** The unique index: one row per transaction. */
  ghost predicate IndexInv(db: Db) {
    && (forall id :: id in db.rows ==> db.rows[id].facts.txn in db.byTxn && db.byTxn[db.rows[id].facts.txn] == id)
    && (forall t :: t in db.byTxn ==> db.byTxn[t] in db.rows && db.rows[db.byTxn[t]].facts.txn == t)
  }

  ghost predicate DbInv(db: Db) {
    RowsInv(db) && IndexInv(db)
  }

  /** How one row may develop: same identity, growing revision, content fixed by the revision, a drafted
      narrative never withdrawn, and a verdict with its narrative final. */
  predicate RowEvolves(a: Alert, b: Alert) {
    && b.facts == a.facts
    && b.revision >= a.revision
    && (b.revision == a.revision ==> b == a)
    && (a.narrative.Some? ==> b.narrative.Some?)
    && (a.Reviewed() ==> b.review == a.review && b.narrative == a.narrative && b.reviewedBy == a.reviewedBy)
  }

  predicate Evolves(db: Db, later: Db) {
    && db.log <= later.log
    && forall id :: id in db.rows ==> id in later.rows && RowEvolves(db.rows[id], later.rows[id])
  }

  lemma EvolvesIsTransitive(a: Db, b: Db, c: Db)
    requires Evolves(a, b) && Evolves(b, c)
    ensures Evolves(a, c)
  {
    forall id | id in a.rows
      ensures id in c.rows && RowEvolves(a.rows[id], c.rows[id])
    {
      assert RowEvolves(a.rows[id], b.rows[id]) && RowEvolves(b.rows[id], c.rows[id]);
    }
  }

  lemma LogAppend(log: seq<AuditRow>, row: AuditRow, id: string)
    ensures EntryCount(log + [row], id) == EntryCount(log, id) + (if row.alertId == id then 1 else 0)
    ensures ReviewDigests(log + [row], id) ==
            ReviewDigests(log, id)
            + (if row.alertId == id && row.entry.Updated? && row.entry.reviewed.Some?
               then [row.entry.reviewed.value] else [])
  {
    assert (log + [row])[..|log|] == log;
  }

  /** An entry that records a verdict comes with the row that bears it; no other entry touches one. */
  predicate EntryMatches(before: Alert, after: Alert, entry: Entry) {
    if entry.Updated? && entry.reviewed.Some? then
      !before.Reviewed() && after.Reviewed() && entry.reviewed.value == Digest(after.narrative)
    else
      before.Reviewed() == after.Reviewed()
  }

  function Replaced(db: Db, id: string, a: Alert, entry: Entry): Db {
    db.(rows := db.rows[id := a], log := db.log + [AuditRow(id, entry)])
  }

  lemma OtherRowInv(a: Alert, id: string, log: seq<AuditRow>, row: AuditRow)
    requires RowInv(a, id, log) && row.alertId != id
    ensures RowInv(a, id, log + [row])
  {
    LogAppend(log, row, id);
  }

  lemma ChangedRowInv(before: Alert, after: Alert, id: string, log: seq<AuditRow>, entry: Entry)
    requires RowInv(before, id, log) && RowEvolves(before, after) && after.revision == before.revision + 1
    requires EntryMatches(before, after, entry)
    ensures RowInv(after, id, log + [AuditRow(id, entry)])
  {
    LogAppend(log, AuditRow(id, entry), id);
  }

  lemma AbsentRows(log: seq<AuditRow>, row: AuditRow, id: string)
    requires EntryCount(log, id) == 0 && ReviewDigests(log, id) == [] && row.alertId != id
    ensures EntryCount(log + [row], id) == 0 && ReviewDigests(log + [row], id) == []
  {
    LogAppend(log, row, id);
  }

  lemma ReplaceKeepsRows(db: Db, id: string, a: Alert, entry: Entry)
    requires RowsInv(db) && id in db.rows
    requires RowEvolves(db.rows[id], a) && a.revision == db.rows[id].revision + 1
    requires EntryMatches(db.rows[id], a, entry)
    ensures RowsInv(Replaced(db, id, a, entry))
  {
    hide RowInv, RowEvolves, EntryMatches, EntryCount, ReviewDigests;
    var row := AuditRow(id, entry);
    var later := Replaced(db, id, a, entry);
    forall x | x in later.rows
      ensures RowInv(later.rows[x], x, later.log)
    {
      if x == id {
        ChangedRowInv(db.rows[id], a, id, db.log, entry);
      } else {
        OtherRowInv(db.rows[x], x, db.log, row);
      }
    }
    forall x | x !in later.rows
      ensures EntryCount(later.log, x) == 0 && ReviewDigests(later.log, x) == []
    {
      AbsentRows(db.log, row, x);
    }
  }

  /** Replacing one row while appending one matching audit entry keeps the invariant. */
  lemma ReplaceKeepsInv(db: Db, id: string, a: Alert, entry: Entry)
    requires DbInv(db) && id in db.rows
    requires RowEvolves(db.rows[id], a) && a.revision == db.rows[id].revision + 1
    requires EntryMatches(db.rows[id], a, entry)
    ensures DbInv(Replaced(db, id, a, entry)) && Evolves(db, Replaced(db, id, a, entry))
  {
    hide RowsInv, RowInv, EntryMatches;
    ReplaceKeepsRows(db, id, a, entry);
    assert a.facts == db.rows[id].facts;
  }

  lemma CreateKeepsRows(db: Db, a: Alert)
    requires RowsInv(db) && a.facts.id !in db.rows && a.revision == 1 && !a.Reviewed()
    ensures RowsInv(CreateOnceStep(db, a))
  {
    if a.facts.txn !in db.byTxn {
      var later := CreateOnceStep(db, a);
      var row := AuditRow(a.facts.id, Created(a.facts.risk, a.facts.alertType, a.review));
      LogAppend(db.log, row, a.facts.id);
      hide RowInv;
      assert RowInv(a, a.facts.id, later.log) by {
        NewRowInv(a, db.log, row);
      }
      forall x | x in later.rows && x != a.facts.id
        ensures RowInv(later.rows[x], x, later.log)
      {
        OtherRowInv(db.rows[x], x, db.log, row);
      }
      forall x | x !in later.rows
        ensures EntryCount(later.log, x) == 0 && ReviewDigests(later.log, x) == []
      {
        AbsentRows(db.log, row, x);
      }
    }
  }

  lemma NewRowInv(a: Alert, log: seq<AuditRow>, row: AuditRow)
    requires EntryCount(log, a.facts.id) == 0 && ReviewDigests(log, a.facts.id) == []
    requires row.alertId == a.facts.id && row.entry.Created? && a.revision == 1 && !a.Reviewed()
    ensures RowInv(a, a.facts.id, log + [row])
  {
    LogAppend(log, row, a.facts.id);
  }

  lemma CreateKeepsInv(db: Db, a: Alert)
    requires DbInv(db) && a.facts.id !in db.rows && a.revision == 1 && !a.Reviewed()
    ensures DbInv(CreateOnceStep(db, a)) && Evolves(db, CreateOnceStep(db, a))
  {
    hide RowsInv;
    CreateKeepsRows(db, a);
    CreateKeepsIndex(db, a);
    if a.facts.txn in db.byTxn {
      EvolvesIsReflexive(db);
    }
  }

  lemma CreateKeepsIndex(db: Db, a: Alert)
    requires IndexInv(db) && a.facts.id !in db.rows
    ensures IndexInv(CreateOnceStep(db, a))
  {
    var later := CreateOnceStep(db, a);
    if a.facts.txn !in db.byTxn {
      forall id | id in later.rows
        ensures later.rows[id].facts.txn in later.byTxn && later.byTxn[later.rows[id].facts.txn] == id
      {
        if id != a.facts.id {
          assert later.rows[id] == db.rows[id];
        }
      }
      forall t | t in later.byTxn
        ensures later.byTxn[t] in later.rows && later.rows[later.byTxn[t]].facts.txn == t
      {
        if t != a.facts.txn {
          assert later.byTxn[t] == db.byTxn[t];
        }
      }
    }
  }

  lemma NarrativeEvolves(a: Alert, draft: Option<Narrative>, model: Option<string>, reason: Reason, now: real)
    ensures var b := WithNarrative(a, draft, model, reason, now);
            RowEvolves(a, b) && b.revision == a.revision + 1 && EntryMatches(a, b, NarrativeFinished(b.reason))
  {
  }

  lemma UpdateEvolves(a: Alert, u: Update, now: real)
    requires u.verdict.Some? ==> a.review.DraftPending?
    ensures var b := WithUpdate(a, u, now);
            RowEvolves(a, b) && b.revision == a.revision + 1 && EntryMatches(a, b, UpdateEntry(a, u))
  {
  }

  lemma FinishKeepsInv(db: Db, id: string, draft: Option<Narrative>, model: Option<string>, reason: Reason, now: real)
    requires DbInv(db)
    ensures var later := FinishNarrativeStep(db, id, draft, model, reason, now);
            DbInv(later) && Evolves(db, later)
  {
    hide WithNarrative, RowInv, RowEvolves, EntryMatches, IndexInv, RowsInv;
    if id in db.rows {
      var a := WithNarrative(db.rows[id], draft, model, reason, now);
      NarrativeEvolves(db.rows[id], draft, model, reason, now);
      ReplaceKeepsInv(db, id, a, NarrativeFinished(a.reason));
    } else {
      EvolvesIsReflexive(db);
    }
  }

  lemma EvolvesIsReflexive(db: Db)
    ensures Evolves(db, db)
  {
  }

  lemma UpdateKeepsInv(db: Db, id: string, u: Update, now: real)
    requires DbInv(db)
    ensures var later := UpdateStep(db, id, u, now);
            DbInv(later) && Evolves(db, later)
  {
    hide WithUpdate, UpdateEntry, RowInv, RowEvolves, EntryMatches, IndexInv, RowsInv;
    if UpdateProblem(db, id, u).None? {
      var a := db.rows[id];
      UpdateEvolves(a, u, now);
      ReplaceKeepsInv(db, id, WithUpdate(a, u, now), UpdateEntry(a, u));
    } else {
      EvolvesIsReflexive(db);
    }
  }

  /** A late completion never touches what a person decides: status, verdict, reviewer, notes and
      assignment stay, and the draft changes only while a pending draft of an open case awaits review. */
  lemma LateCompletionRespectsReview(db: Db, id: string, draft: Option<Narrative>, model: Option<string>,
                                     reason: Reason, now: real)
    requires id in db.rows
    ensures var a, b := db.rows[id], FinishNarrativeStep(db, id, draft, model, reason, now).rows[id];
            && b.status == a.status && b.review == a.review && b.reviewedBy == a.reviewedBy
            && b.notes == a.notes && b.assignedTo == a.assignedTo
            && (if draft.Some? && a.review == DraftPending && a.status in {Open, Investigating} then
                  b.narrative == draft && b.generatedBy == Some("openai") && b.model == model && b.reason == reason
                else
                  && b.narrative == a.narrative && b.generatedBy == a.generatedBy && b.model == a.model
                  && b.reason == if draft.Some? then ReviewAlreadyCompleted else reason)
  {
  }
}
