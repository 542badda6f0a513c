/** Where alerts end up: which drafts await review, which updates are accepted, and what one delivery leaves. */
module Outcomes {
  import opened Basics
  import opened Alerts
  import opened ReviewProtocol
  import opened AlertManagement
  import Budget

  // ---- Drafts await review ----------------------------------------------------------------

  /** A draft is there exactly from the drafting threshold on, and exactly then under review. */
  predicate UnderReview(c: Config, a: Alert) {
    && (a.narrative.Some? <==> a.facts.risk >= c.sarThreshold)
    && (a.review.NotGenerated? <==> a.facts.risk < c.sarThreshold)
  }

  ghost predicate AllUnderReview(c: Config, s: System) {
    && (forall id :: id in s.db.rows ==> UnderReview(c, s.db.rows[id]))
    && (forall w :: w in s.tasks && s.tasks[w].Creating? ==> UnderReview(c, s.tasks[w].alert))
  }

  lemma NewIsUnderReview(c: Config, m: Scored, id: string, now: real)
    ensures UnderReview(c, NewAlert(c, m, id, now))
  {
  }

  lemma FinishedIsUnderReview(c: Config, a: Alert, draft: Option<Narrative>, model: Option<string>, reason: Reason,
                              now: real)
    requires UnderReview(c, a)
    ensures UnderReview(c, WithNarrative(a, draft, model, reason, now))
  {
  }

  lemma UpdatedIsUnderReview(c: Config, a: Alert, u: Update, now: real)
    requires UnderReview(c, a) && (u.verdict.Some? ==> a.review.DraftPending?)
    ensures UnderReview(c, WithUpdate(a, u, now))
  {
  }

  lemma AdvanceKeepsReview(c: Config, s: System, w: nat, now: real, valid: bool, outcome: Outcome)
    requires AllUnderReview(c, s)
    ensures AllUnderReview(c, Advanced(c, s, w, now, valid, outcome))
  {
    hide UnderReview, WithNarrative, DenialReason, SettledOutcome;
    hide Budget.Decide, Budget.ReserveStep, Budget.FinishStep;
    if w in s.tasks && s.tasks[w].Recording? && s.tasks[w].id in s.db.rows {
      var t := s.tasks[w];
      FinishedIsUnderReview(c, s.db.rows[t.id], t.draft, if t.draft.Some? then Some(c.modelName) else None,
                            t.reason, now);
    }
  }

  lemma StepKeepsReview(c: Config, s: System, e: Event)
    requires AllUnderReview(c, s)
    ensures AllUnderReview(c, Step(c, s, e))
  {
    hide UnderReview, Advanced, WithUpdate, NewAlert, NeedsAlert, FreshId;
    match e
    case Deliver(w, m, id, now) => NewIsUnderReview(c, m, id, now);
    case Advance(w, now, valid, outcome) => AdvanceKeepsReview(c, s, w, now, valid, outcome);
    case Crash(w) =>
    case ReviewBy(id, u, now) =>
      if UpdateProblem(s.db, id, u).None? {
        UpdatedIsUnderReview(c, s.db.rows[id], u, now);
      }
  }

  lemma {:induction false} RunKeepsReview(c: Config, s: System, events: seq<Event>)
    requires AllUnderReview(c, s)
    ensures AllUnderReview(c, Run(c, s, events))
    decreases |events|
  {
    hide AllUnderReview, Step;
    if events != [] {
      StepKeepsReview(c, s, events[0]);
      RunKeepsReview(c, Step(c, s, events[0]), events[1..]);
    }
  }

  /** Main result: over every interleaving, an alert has a draft exactly if its score reaches the drafting
      threshold, and until a verdict is on record every such draft is pending review. */
  lemma DraftsAwaitReview(c: Config, events: seq<Event>, id: string)
    requires id in Run(c, INITIAL, events).db.rows
    ensures var s := Run(c, INITIAL, events);
            var a := s.db.rows[id];
            && (a.narrative.Some? <==> a.facts.risk >= c.sarThreshold)
            && (a.review == DraftPending <==> a.facts.risk >= c.sarThreshold && ReviewDigests(s.db.log, id) == [])
            && (a.Reviewed() <==> ReviewDigests(s.db.log, id) != [])
  {
    hide Inv, Step, Later;
    var s := Run(c, INITIAL, events);
    InitialInv(c);
    RunKeepsInv(c, INITIAL, events);
    RunKeepsReview(c, INITIAL, events);
    RowFacts(c, s, id);
    assert UnderReview(c, s.db.rows[id]);
  }

  // ---- Updates ----------------------------------------------------------------------------

  /** What a person may change now: the current revision of a stored alert, with a verdict only on a draft no
      verdict is on record for. */
  predicate MayUpdate(c: Config, db: Db, id: string, u: Update) {
    && id in db.rows && u.expectedRevision == EntryCount(db.log, id)
    && (u.verdict.Some? ==> db.rows[id].facts.risk >= c.sarThreshold && ReviewDigests(db.log, id) == [])
  }

  /** The row says what the update asks for and otherwise what it said before. */
  predicate Carries(before: Alert, after: Alert, u: Update, now: real) {
    && after.facts == before.facts && after.narrative == before.narrative && after.generatedBy == before.generatedBy
    && after.model == before.model && after.reason == before.reason
    && after.revision == before.revision + 1 && after.updatedAt == now
    && (u.status.Some? ==> after.status == u.status.value) && (u.status.None? ==> after.status == before.status)
    && (u.notes.Some? ==> after.notes == u.notes) && (u.notes.None? ==> after.notes == before.notes)
    && (u.assignedTo.Some? ==> after.assignedTo == u.assignedTo)
    && (u.assignedTo.None? ==> after.assignedTo == before.assignedTo)
    && (u.verdict == Some(Approve) ==> after.review == Approved)
    && (u.verdict == Some(Reject) ==> after.review == Rejected)
    && (u.verdict.Some? ==>
          && after.reviewedAt == Some(now)
          && after.reviewedBy == Some(if u.actor == "" then "unknown-investigator" else u.actor))
    && (u.verdict.None? ==> after.review == before.review && after.reviewedBy == before.reviewedBy
                            && after.reviewedAt == before.reviewedAt)
  }

  /** The audit entry says who changed what, and from which revision to which. */
  predicate IsEntry(entry: Entry, before: Alert, u: Update) {
    && entry.Updated? && entry.changes == u && (u.actor != "" ==> entry.actor == u.actor)
    && (u.actor == "" ==> entry.actor == "unknown-investigator")
    && entry.previousRevision == before.revision && entry.revision == before.revision + 1
  }

  lemma ApplyingCarries(db: Db, id: string, u: Update, now: real)
    requires UpdateProblem(db, id, u).None?
    ensures var later := UpdateStep(db, id, u, now);
            && later.rows.Keys == db.rows.Keys && Carries(db.rows[id], later.rows[id], u, now)
            && (forall x :: x in db.rows && x != id ==> later.rows[x] == db.rows[x])
            && |later.log| == |db.log| + 1 && later.log[|db.log|].alertId == id
            && IsEntry(later.log[|db.log|].entry, db.rows[id], u)
  {
  }

  lemma RefusingChangesNothing(db: Db, id: string, u: Update, now: real)
    requires UpdateProblem(db, id, u).Some?
    ensures UpdateStep(db, id, u, now) == db
  {
  }

  /** Main result: over every interleaving, an update of any kind, with or without a verdict, is accepted
      exactly if it names the current revision of a stored alert and any verdict is the first on its draft;
      it then changes what it asks for in that row and leaves one audit entry, and otherwise changes nothing. */
  lemma UpdatesAreExact(c: Config, events: seq<Event>, id: string, u: Update, now: real)
    ensures var s := Run(c, INITIAL, events);
            var n := Step(c, s, ReviewBy(id, u, now));
            if MayUpdate(c, s.db, id, u) then
              && id in n.db.rows && Carries(s.db.rows[id], n.db.rows[id], u, now)
              && (forall x :: x in s.db.rows && x != id ==> x in n.db.rows && n.db.rows[x] == s.db.rows[x])
              && |n.db.log| == |s.db.log| + 1 && s.db.log <= n.db.log && n.db.log[|s.db.log|].alertId == id
              && IsEntry(n.db.log[|s.db.log|].entry, s.db.rows[id], u)
              && (u.verdict.Some? ==> ReviewDigests(n.db.log, id) == [Digest(s.db.rows[id].narrative)])
            else n == s
    ensures var db := Run(c, INITIAL, events).db;
            UpdateProblem(db, id, u)
            == if MayUpdate(c, db, id, u) then None
               else if id !in db.rows then Some(NotFound)
               else if u.expectedRevision != EntryCount(db.log, id) then Some(StaleRevision)
               else Some(NotPending)
  {
    hide Inv, Carries, IsEntry, RowEvolves, UpdateStep, Received, Advanced;
    var s := Run(c, INITIAL, events);
    var n := Step(c, s, ReviewBy(id, u, now));
    InitialInv(c);
    RunKeepsInv(c, INITIAL, events);
    StepKeepsInv(c, s, ReviewBy(id, u, now));
    if id in s.db.rows {
      DraftsAwaitReview(c, events, id);
      RowFacts(c, s, id);
    }
    hide Run;
    if UpdateProblem(s.db, id, u).Some? {
      RefusingChangesNothing(s.db, id, u, now);
    } else {
      ApplyingCarries(s.db, id, u, now);
      RowFacts(c, n, id);
      CarriedVerdict(s.db.rows[id], n.db.rows[id], u, now);
    }
  }

  lemma CarriedVerdict(before: Alert, after: Alert, u: Update, now: real)
    requires Carries(before, after, u, now)
    ensures after.revision == before.revision + 1 && after.narrative == before.narrative
    ensures u.verdict.Some? ==> after.Reviewed()
  {
    if u.verdict.Some? {
      match u.verdict.value
      case Approve => assert u.verdict == Some(Approve);
      case Reject => assert u.verdict == Some(Reject);
    }
  }

  /** Main result: no update overwrites another unseen. Whatever happens between loading an alert and the
      update that names the loaded revision, the update changes nothing unless the row is still the one
      that was loaded. */
  lemma NoLostUpdate(c: Config, before: seq<Event>, meanwhile: seq<Event>, id: string, u: Update, now: real)
    requires id in Run(c, INITIAL, before).db.rows
    requires u.expectedRevision == Run(c, INITIAL, before).db.rows[id].revision
    ensures var loaded := Run(c, INITIAL, before);
            var s := Run(c, loaded, meanwhile);
            Step(c, s, ReviewBy(id, u, now)) == s || (id in s.db.rows && s.db.rows[id] == loaded.db.rows[id])
  {
    hide Inv, Step, Later, UpdateStep;
    RevisionIdentifiesContent(c, before, meanwhile, id);
    var s := Run(c, Run(c, INITIAL, before), meanwhile);
    if UpdateProblem(s.db, id, u).Some? {
      RefusingChangesNothing(s.db, id, u, now);
      ReviewStep(c, s, id, u, now);
    }
  }

  lemma ReviewStep(c: Config, s: System, id: string, u: Update, now: real)
    ensures Step(c, s, ReviewBy(id, u, now)) == s.(db := UpdateStep(s.db, id, u, now))
  {
    hide UpdateStep;
  }

  // ---- One undisturbed delivery -----------------------------------------------------------

  /** What stands in the way of a paid call, in the order in which it is looked for. */
  function Obstacle(c: Config, l: Budget.Ledger, txn: string, now: real): Option<string> {
    if txn in l.attempts then Some("already_attempted")
    else if l.openUntil > now then Some("circuit_open")
    else if Budget.Calls(l, Budget.UtcDay(now)) >= c.policy.dailyCalls then Some("daily_budget_exhausted")
    else if |Budget.Active(l.attempts, now)| >= c.policy.concurrentCalls then Some("concurrency_limit")
    else None
  }

  /** The alert as it is created, before any attempt at a better draft. */
  predicate IsFresh(c: Config, a: Alert, m: Scored, id: string, now: real) {
    && a.facts.id == id && a.facts.txn == m.txn && a.facts.risk == m.risk && a.facts.customer == m.evidence.customer
    && a.facts.evidence == m.evidence && a.facts.createdAt == now && a.updatedAt == now
    && (m.risk < c.alertThreshold ==> a.facts.alertType == "data_quality_review")
    && (m.risk >= c.alertThreshold ==> a.facts.alertType == DetermineAlertType(m.evidence))
    && a.status == Open && a.reviewedBy == None && a.reviewedAt == None && a.notes == None && a.assignedTo == None
    && a.model == None && a.revision == 1
    && (m.risk >= c.sarThreshold ==>
          && a.review == DraftPending && a.reason == TemplateReady && a.generatedBy == Some("template")
          && a.narrative == Some(TemplateDraft(id, m.txn, m.risk, m.evidence)))
    && (m.risk < c.sarThreshold ==>
          && a.review == NotGenerated && a.reason == NotEligible && a.generatedBy == None && a.narrative == None)
  }

  /** The alert after one narrative attempt that left its template, and why. */
  function Kept(a: Alert, reason: Reason, now: real): Alert {
    a.(reason := reason, updatedAt := now, revision := 2)
  }

  /** The alert after one narrative attempt that replaced its template. */
  function Redrafted(c: Config, a: Alert, text: string, now: real): Alert {
    a.(narrative := Some(ModelDraft(text)), generatedBy := Some("openai"), model := Some(c.modelName),
       reason := AiCompleted, updatedAt := now, revision := 2)
  }

  lemma AttemptShows(c: Config, a: Alert, text: string, reason: Reason, now: real)
    requires a.revision == 1
    ensures Kept(a, reason, now) != a && Kept(a, reason, now).reason == reason
    ensures Redrafted(c, a, text, now) != a && Redrafted(c, a, text, now).reason == AiCompleted
  {
  }

  lemma FreshAlert(c: Config, m: Scored, id: string, now: real)
    ensures IsFresh(c, NewAlert(c, m, id, now), m, id, now)
  {
    hide DetermineAlertType;
  }

  // Where a lone worker ends up from each of its stations.

  lemma FromRecording(c: Config, db: Db, l: Budget.Ledger, t: Task, calls: seq<Call>, clock: nat -> real, valid: bool,
                      outcome: Outcome, from: nat)
    requires t.Recording? && from <= 6
    ensures Remaining(c, Solo(db, l, t, calls), clock, valid, outcome, from)
            == System(FinishNarrativeStep(db, t.id, t.draft, if t.draft.Some? then Some(c.modelName) else None,
                                          t.reason, clock(from)),
                      l, map[], calls)
  {
    hide Remaining, FinishNarrativeStep;
    OneStep(c, db, l, t, calls, clock, valid, outcome, from);
    Replace(t, t);
    NothingRemains(c, Record(c, Solo(db, l, t, calls), 0, t, clock(from)), clock, valid, outcome, from + 1);
  }

  lemma FromCalling(c: Config, db: Db, l: Budget.Ledger, id: string, txn: string, clock: nat -> real, valid: bool,
                    outcome: Outcome)
    ensures var n := Remaining(c, Solo(db, l, Calling(id, txn), []), clock, valid, outcome, 3);
            && n.calls == [Call(txn, id)]
            && (outcome.Completed? ==>
                  && n.db == FinishNarrativeStep(db, id, Some(ModelDraft(outcome.text)), Some(c.modelName),
                                                 AiCompleted, clock(6))
                  && n.ledger == Budget.FinishStep(l, txn, true, "ai_completed", c.policy, clock(5)))
            && (outcome.Failed? ==>
                  && n.db == FinishNarrativeStep(db, id, None, None, AiFailedOrTimedOut, clock(6))
                  && n.ledger == Budget.FinishStep(l, txn, false, "ai_failed_or_timed_out", c.policy, clock(5)))
            && (outcome.Cancelled? ==>
                  && n.db == db
                  && n.ledger == Budget.FinishStep(l, txn, false, "cancelled", c.policy, clock(5)))
  {
    hide Remaining, FinishNarrativeStep, Budget.FinishStep;
    var calls, t := [Call(txn, id)], Returned(id, txn, outcome);
    OneStep(c, db, l, Calling(id, txn), [], clock, valid, outcome, 3);
    Replace(Calling(id, txn), Awaiting(id, txn));
    assert [] + calls == calls;
    OneStep(c, db, l, Awaiting(id, txn), calls, clock, valid, outcome, 4);
    Replace(Awaiting(id, txn), t);
    OneStep(c, db, l, t, calls, clock, valid, outcome, 5);
    var ledger := Budget.FinishStep(l, txn, t.draft.Some?, SettledOutcome(t), c.policy, clock(5));
    if outcome.Cancelled? {
      Replace(t, t);
      NothingRemains(c, System(db, ledger, map[], calls), clock, valid, outcome, 6);
    } else {
      var r := Recording(id, txn, t.draft, t.reason);
      Replace(t, r);
      FromRecording(c, db, ledger, r, calls, clock, valid, outcome, 6);
    }
  }

  lemma DecisionHasObstacle(c: Config, l: Budget.Ledger, txn: string, now: real)
    ensures var d, o := Budget.Decide(l, txn, c.policy, now), Obstacle(c, l, txn, now);
            && (d.Granted? <==> o.None?)
            && (o.Some? ==> DenialReason(d) == Denied(o.value))
  {
  }

  lemma FromPreparing(c: Config, db: Db, l: Budget.Ledger, id: string, txn: string, clock: nat -> real, valid: bool,
                      outcome: Outcome)
    ensures var o := Obstacle(c, l, txn, clock(2));
            Remaining(c, Solo(db, l, Preparing(id, txn), []), clock, valid, outcome, 2)
            == if !valid then
                 System(FinishNarrativeStep(db, id, None, None, InvalidModelEvidence, clock(3)), l, map[], [])
               else if o.Some? then
                 System(FinishNarrativeStep(db, id, None, None, Denied(o.value), clock(3)), l, map[], [])
               else
                 Remaining(c, Solo(db, Budget.ReserveStep(l, txn, c.policy, clock(2)), Calling(id, txn), []),
                           clock, valid, outcome, 3)
  {
    hide Remaining, FinishNarrativeStep, Budget.ReserveStep, Budget.Decide, Obstacle, DenialReason;
    var o := Obstacle(c, l, txn, clock(2));
    OneStep(c, db, l, Preparing(id, txn), [], clock, valid, outcome, 2);
    DecisionHasObstacle(c, l, txn, clock(2));
    if !valid {
      Replace(Preparing(id, txn), Recording(id, txn, None, InvalidModelEvidence));
      FromRecording(c, db, l, Recording(id, txn, None, InvalidModelEvidence), [], clock, valid, outcome, 3);
    } else if o.Some? {
      Replace(Preparing(id, txn), Recording(id, txn, None, Denied(o.value)));
      FromRecording(c, db, l, Recording(id, txn, None, Denied(o.value)), [], clock, valid, outcome, 3);
    } else {
      Replace(Preparing(id, txn), Calling(id, txn));
    }
  }

  lemma FromCreating(c: Config, db: Db, l: Budget.Ledger, a: Alert, clock: nat -> real, valid: bool, outcome: Outcome)
    requires a.facts.txn !in db.byTxn
    ensures Remaining(c, Solo(db, l, Creating(a), []), clock, valid, outcome, 1)
            == if a.facts.risk >= c.sarThreshold && c.clientEnabled then
                 Remaining(c, Solo(CreateOnceStep(db, a), l, Preparing(a.facts.id, a.facts.txn), []),
                           clock, valid, outcome, 2)
               else System(CreateOnceStep(db, a), l, map[], [])
  {
    hide Remaining, CreateOnceStep;
    OneStep(c, db, l, Creating(a), [], clock, valid, outcome, 1);
    Replace(Creating(a), Preparing(a.facts.id, a.facts.txn));
    if !(a.facts.risk >= c.sarThreshold && c.clientEnabled) {
      NothingRemains(c, System(CreateOnceStep(db, a), l, map[], []), clock, valid, outcome, 2);
    }
  }

  lemma FinishedRow(c: Config, db: Db, a: Alert, text: string, reason: Reason, now: real)
    requires a.facts.id in db.rows && db.rows[a.facts.id] == a && a.revision == 1
    ensures var kept := FinishNarrativeStep(db, a.facts.id, None, None, reason, now);
            && kept.byTxn == db.byTxn && a.facts.id in kept.rows && kept.rows[a.facts.id] == Kept(a, reason, now)
            && kept.log == db.log + [AuditRow(a.facts.id, NarrativeFinished(reason))]
    ensures a.review == DraftPending && a.status == Open ==>
              (var redrafted := FinishNarrativeStep(db, a.facts.id, Some(ModelDraft(text)), Some(c.modelName),
                                                    AiCompleted, now);
               && redrafted.byTxn == db.byTxn && a.facts.id in redrafted.rows
               && redrafted.rows[a.facts.id] == Redrafted(c, a, text, now)
               && redrafted.log == db.log + [AuditRow(a.facts.id, NarrativeFinished(AiCompleted))])
  {
  }

  lemma CallOnRecord(l: Budget.Ledger, txn: string, p: Budget.Policy, at: real, success: bool, outcome: string,
                     now: real)
    requires Budget.Decide(l, txn, p, at).Granted?
    ensures var n := Budget.FinishStep(Budget.ReserveStep(l, txn, p, at), txn, success, outcome, p, now);
            && n.attempts == l.attempts[txn := Budget.Finished(at + p.timeout + 5.0, outcome)]
            && Budget.Calls(n, Budget.UtcDay(at)) == Budget.Calls(l, Budget.UtcDay(at)) + 1
  {
  }

  /** The paid call one delivery makes, if any, and how it is put on record. */
  predicate CallMade(c: Config, l: Budget.Ledger, n: System, m: Scored, id: string, at: real, outcome: string) {
    && n.calls == [Call(m.txn, id)]
    && n.ledger.attempts == l.attempts[m.txn := Budget.Finished(at + c.policy.timeout + 5.0, outcome)]
    && Budget.Calls(n.ledger, Budget.UtcDay(at)) == Budget.Calls(l, Budget.UtcDay(at)) + 1
  }

  /** How a delivery that calls for a new alert ends: with the alert fresh, with its template kept for a stated
      reason, or with the model's draft, pending review in every case that has one. */
  ghost predicate Ends(c: Config, log: seq<AuditRow>, l: Budget.Ledger, n: System, m: Scored, id: string,
                       clock: nat -> real, valid: bool, outcome: Outcome, a: Alert)
  {
    var o := Obstacle(c, l, m.txn, clock(2));
    && IsFresh(c, a, m, id, clock(0)) && id in n.db.rows && m.txn in n.db.byTxn && n.db.byTxn[m.txn] == id
    && n.db.log == log + [AuditRow(id, Created(m.risk, a.facts.alertType, a.review))]
                   + (if n.db.rows[id] == a then [] else [AuditRow(id, NarrativeFinished(n.db.rows[id].reason))])
    && if m.risk < c.sarThreshold || !c.clientEnabled then
         n.db.rows[id] == a && n.ledger == l && n.calls == []
       else if !valid then
         n.db.rows[id] == Kept(a, InvalidModelEvidence, clock(3)) && n.ledger == l && n.calls == []
       else if o.Some? then
         n.db.rows[id] == Kept(a, Denied(o.value), clock(3)) && n.ledger == l && n.calls == []
       else
         match outcome
         case Completed(text) =>
           n.db.rows[id] == Redrafted(c, a, text, clock(6)) && CallMade(c, l, n, m, id, clock(2), "ai_completed")
         case Failed =>
           && n.db.rows[id] == Kept(a, AiFailedOrTimedOut, clock(6))
           && CallMade(c, l, n, m, id, clock(2), "ai_failed_or_timed_out")
         case Cancelled =>
           n.db.rows[id] == a && CallMade(c, l, n, m, id, clock(2), "cancelled")
  }

  /** A row of the created tables is the alert itself. */
  lemma CreatedRow(db: Db, a: Alert)
    requires a.facts.txn !in db.byTxn
    ensures var n := CreateOnceStep(db, a);
            && a.facts.id in n.rows && n.rows[a.facts.id] == a
            && a.facts.txn in n.byTxn && n.byTxn[a.facts.txn] == a.facts.id
            && n.log == db.log + [AuditRow(a.facts.id, Created(a.facts.risk, a.facts.alertType, a.review))]
  {
  }

  lemma CallEnds(c: Config, log: seq<AuditRow>, created: Db, l: Budget.Ledger, m: Scored, id: string,
                 clock: nat -> real, valid: bool, outcome: Outcome, a: Alert)
    requires IsFresh(c, a, m, id, clock(0)) && id in created.rows && created.rows[id] == a
    requires m.txn in created.byTxn && created.byTxn[m.txn] == id
    requires m.risk >= c.sarThreshold && c.clientEnabled && valid && Obstacle(c, l, m.txn, clock(2)).None?
    requires created.log == log + [AuditRow(id, Created(m.risk, a.facts.alertType, a.review))]
    ensures Ends(c, log, l, Remaining(c, Solo(created, Budget.ReserveStep(l, m.txn, c.policy, clock(2)),
                                         Calling(id, m.txn), []), clock, valid, outcome, 3),
                 m, id, clock, valid, outcome, a)
  {
    hide Remaining, Obstacle, FinishNarrativeStep, Budget.FinishStep, Budget.ReserveStep, Budget.Decide;
    hide Kept, Redrafted, Budget.Calls, Budget.UtcDay;
    DecisionHasObstacle(c, l, m.txn, clock(2));
    assert created.log + [] == created.log;
    FromCalling(c, created, Budget.ReserveStep(l, m.txn, c.policy, clock(2)), id, m.txn, clock, valid, outcome);
    match outcome
    case Completed(text) =>
      FinishedRow(c, created, a, text, AiCompleted, clock(6));
      AttemptShows(c, a, text, AiCompleted, clock(6));
      CallOnRecord(l, m.txn, c.policy, clock(2), true, "ai_completed", clock(5));
    case Failed =>
      FinishedRow(c, created, a, "", AiFailedOrTimedOut, clock(6));
      AttemptShows(c, a, "", AiFailedOrTimedOut, clock(6));
      CallOnRecord(l, m.txn, c.policy, clock(2), false, "ai_failed_or_timed_out", clock(5));
    case Cancelled =>
      CallOnRecord(l, m.txn, c.policy, clock(2), false, "cancelled", clock(5));
  }

  lemma NewDeliveryEnds(c: Config, db: Db, l: Budget.Ledger, m: Scored, id: string, clock: nat -> real, valid: bool,
                        outcome: Outcome, a: Alert)
    requires m.txn !in db.byTxn && IsFresh(c, a, m, id, clock(0))
    ensures Ends(c, db.log, l, Remaining(c, Solo(db, l, Creating(a), []), clock, valid, outcome, 1), m, id, clock,
                 valid, outcome, a)
  {
    hide Remaining, Obstacle, FinishNarrativeStep, CreateOnceStep, CallMade, Kept, Redrafted, Budget.ReserveStep;
    var created := CreateOnceStep(db, a);
    CreatedRow(db, a);
    assert created.log + [] == created.log;
    FromCreating(c, db, l, a, clock, valid, outcome);
    if m.risk >= c.sarThreshold && c.clientEnabled {
      FromPreparing(c, created, l, id, m.txn, clock, valid, outcome);
      var o := Obstacle(c, l, m.txn, clock(2));
      if !valid {
        FinishedRow(c, created, a, "", InvalidModelEvidence, clock(3));
        AttemptShows(c, a, "", InvalidModelEvidence, clock(3));
      } else if o.Some? {
        FinishedRow(c, created, a, "", Denied(o.value), clock(3));
        AttemptShows(c, a, "", Denied(o.value), clock(3));
      } else {
        CallEnds(c, db.log, created, l, m, id, clock, valid, outcome, a);
      }
    }
  }

  lemma AloneStarts(c: Config, db: Db, l: Budget.Ledger, m: Scored, id: string, clock: nat -> real, valid: bool,
                    outcome: Outcome)
    requires id !in db.rows
    ensures Alone(c, db, l, m, id, clock, valid, outcome)
            == if m.txn !in db.byTxn && 0.0 <= m.risk <= 1.0 && (m.risk >= c.alertThreshold || m.reviewRecommended)
               then Remaining(c, Solo(db, l, Creating(NewAlert(c, m, id, clock(0))), []), clock, valid, outcome, 1)
               else System(db, l, map[], [])
  {
    hide Remaining, NewAlert;
    var idle := System(db, l, map[], []);
    NothingRemains(c, idle, clock, valid, outcome, 1);
    assert map[][0 := Creating(NewAlert(c, m, id, clock(0)))] == map[0 := Creating(NewAlert(c, m, id, clock(0)))];
  }

  /** Main result: how one undisturbed delivery ends, in every case. */
  lemma DeliveryEnds(c: Config, db: Db, l: Budget.Ledger, m: Scored, id: string, clock: nat -> real, valid: bool,
                     outcome: Outcome)
    requires id !in db.rows
    ensures var n := Alone(c, db, l, m, id, clock, valid, outcome);
            if m.txn !in db.byTxn && 0.0 <= m.risk <= 1.0 && (m.risk >= c.alertThreshold || m.reviewRecommended)
            then exists a :: Ends(c, db.log, l, n, m, id, clock, valid, outcome, a)
            else n == System(db, l, map[], [])
  {
    hide Alone, NewAlert, Ends;
    AloneStarts(c, db, l, m, id, clock, valid, outcome);
    FreshAlert(c, m, id, clock(0));
    if m.txn !in db.byTxn && 0.0 <= m.risk <= 1.0 && (m.risk >= c.alertThreshold || m.reviewRecommended) {
      NewDeliveryEnds(c, db, l, m, id, clock, valid, outcome, NewAlert(c, m, id, clock(0)));
    }
  }
}
