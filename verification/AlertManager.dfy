/** The alert manager as one undisturbed worker, on the mutable tables. */
module AlertManagement {
  import opened Basics
  import opened Alerts
  import opened ReviewProtocol
  import Budget

  /** The state after the steps numbered `from` to 6 of worker 0, the i-th at the i-th clock reading. */
  function Remaining(c: Config, s: System, clock: nat -> real, valid: bool, outcome: Outcome, from: nat): System
    decreases 7 - from
  {
    if from > 6 then s
    else Remaining(c, Advanced(c, s, 0, clock(from), valid, outcome), clock, valid, outcome, from + 1)
  }

  /** One delivery followed to its end with nobody else at work. */
  function Alone(c: Config, db: Db, ledger: Budget.Ledger, m: Scored, id: string, clock: nat -> real,
                 valid: bool, outcome: Outcome): System
  {
    Remaining(c, Received(c, System(db, ledger, map[], []), 0, m, id, clock(0)), clock, valid, outcome, 1)
  }

  lemma NothingRemains(c: Config, s: System, clock: nat -> real, valid: bool, outcome: Outcome, from: nat)
    requires 0 !in s.tasks
    ensures Remaining(c, s, clock, valid, outcome, from) == s
    decreases 7 - from
  {
    if from <= 6 {
      NothingRemains(c, s, clock, valid, outcome, from + 1);
    }
  }

  /** Worker 0 alone, about to do `t`. */
  function Solo(db: Db, ledger: Budget.Ledger, t: Task, calls: seq<Call>): System {
    System(db, ledger, map[0 := t], calls)
  }

  /** What the next clock reading does to a lone worker. */
  lemma OneStep(c: Config, db: Db, l: Budget.Ledger, t: Task, calls: seq<Call>, clock: nat -> real, valid: bool,
                outcome: Outcome, from: nat)
    requires from <= 6
    ensures var s := Solo(db, l, t, calls);
            Remaining(c, s, clock, valid, outcome, from)
            == Remaining(c, AfterStep(c, s, t, clock(from), valid, outcome), clock, valid, outcome, from + 1)
  {
    hide Create, Prepare, IssueCall, Returned, Settle, Record;
  }

  function AfterStep(c: Config, s: System, t: Task, now: real, valid: bool, outcome: Outcome): System {
    match t
    case Creating(a) => Create(c, s, 0, a)
    case Preparing(id, txn) => Prepare(c, s, 0, id, txn, now, valid)
    case Calling(id, txn) => IssueCall(s, 0, id, txn)
    case Awaiting(id, txn) => s.(tasks := s.tasks[0 := Returned(id, txn, outcome)])
    case Settling(_, _, _, _, _) => Settle(c, s, 0, t, now)
    case Recording(_, _, _, _) => Record(c, s, 0, t, now)
  }

  lemma Replace(t: Task, u: Task)
    ensures map[0 := t][0 := u] == map[0 := u]
    ensures map[0 := t] - {0} == map[]
  {
  }

  /** The unique index still leads to the alert once its narrative attempt is recorded. */
  lemma StillIndexed(db: Db, id: string, draft: Option<Narrative>, model: Option<string>, reason: Reason, now: real)
    requires DbInv(db) && id in db.rows
    ensures var later := FinishNarrativeStep(db, id, draft, model, reason, now);
            var txn := db.rows[id].facts.txn;
            id in later.rows && txn in later.byTxn && later.byTxn[txn] == id
  {
  }

  lemma IndexFacts(db: Db)
    requires DbInv(db)
    ensures forall t :: t in db.byTxn ==> db.byTxn[t] in db.rows && db.rows[db.byTxn[t]].facts.txn == t
  {
  }

  lemma DenialChangesNothing(l: Budget.Ledger, txn: string, p: Budget.Policy, now: real)
    requires !Budget.Decide(l, txn, p, now).Granted?
    ensures Budget.ReserveStep(l, txn, p, now) == l
  {
  }

  datatype Failure = InvalidScore | Interrupted

  class AlertManager {
    const config: Config
    const repository: AlertRepository
    const budget: Budget.NarrativeBudget

    constructor (config: Config, repository: AlertRepository, budget: Budget.NarrativeBudget)
      requires config.Valid()
      ensures this.config == config && this.repository == repository && this.budget == budget
    {
      this.config, this.repository, this.budget := config, repository, budget;
    }

    /** `id` is a fresh identifier, `clock(i)` the time of the i-th step, `valid` whether the evidence
        meets the model contract, and `outcome` what the provider would answer. */
    method ProcessScoredTransaction(m: Scored, id: string, clock: nat -> real, valid: bool, outcome: Outcome)
      returns (r: Result<Option<Alert>, Failure>)
      requires DbInv(repository.State()) && id !in repository.rows
      modifies repository, budget
      ensures var n := Alone(config, old(repository.State()), old(budget.State()), m, id, clock, valid, outcome);
              && repository.State() == n.db && budget.State() == n.ledger && 0 !in n.tasks
              && (r == Err(Interrupted) <==> outcome.Cancelled? && n.calls != [])
      ensures r == Err(InvalidScore) <==> !(0.0 <= m.risk <= 1.0)
      ensures r.Ok? ==> (r.value.None? <==> !NeedsAlert(config, m))
      ensures r.Ok? && r.value.Some? ==> m.txn in repository.byTxn && repository.byTxn[m.txn] in repository.rows
                                         && r.value.value == repository.rows[repository.byTxn[m.txn]]
    {
      hide Remaining, CreateOnceStep, DbInv;
      IndexFacts(repository.State());
      ghost var db, ledger := repository.State(), budget.State();
      if !(0.0 <= m.risk <= 1.0) {
        NothingRemains(config, System(db, ledger, map[], []), clock, valid, outcome, 1);
        return Err(InvalidScore);
      }
      if m.risk < config.alertThreshold && !m.reviewRecommended {
        NothingRemains(config, System(db, ledger, map[], []), clock, valid, outcome, 1);
        return Ok(None);
      }
      if m.txn in repository.byTxn {
        NothingRemains(config, System(db, ledger, map[], []), clock, valid, outcome, 1);
        return Ok(Some(repository.rows[repository.byTxn[m.txn]]));
      }
      assert Received(config, System(db, ledger, map[], []), 0, m, id, clock(0))
          == Solo(db, ledger, Creating(NewAlert(config, m, id, clock(0))), []);
      r := CreateAlert(m, NewAlert(config, m, id, clock(0)), clock, valid, outcome);
    }

    method CreateAlert(m: Scored, alert: Alert, clock: nat -> real, valid: bool, outcome: Outcome)
      returns (r: Result<Option<Alert>, Failure>)
      requires DbInv(repository.State()) && alert.facts.id !in repository.rows && alert.facts.txn !in repository.byTxn
      requires alert.facts.txn == m.txn && alert.facts.risk == m.risk && alert.revision == 1 && !alert.Reviewed()
      modifies repository, budget
      ensures var n := Remaining(config, Solo(old(repository.State()), old(budget.State()), Creating(alert), []),
                                 clock, valid, outcome, 1);
              && repository.State() == n.db && budget.State() == n.ledger && 0 !in n.tasks
              && (r == Err(Interrupted) <==> outcome.Cancelled? && n.calls != [])
      ensures r != Err(InvalidScore)
      ensures r.Ok? ==> && r.value.Some? && m.txn in repository.byTxn && repository.byTxn[m.txn] in repository.rows
                        && r.value.value == repository.rows[repository.byTxn[m.txn]]
    {
      hide Remaining, DbInv;
      ghost var db, ledger := repository.State(), budget.State();
      OneStep(config, db, ledger, Creating(alert), [], clock, valid, outcome, 1);
      Replace(Creating(alert), Preparing(alert.facts.id, alert.facts.txn));
      CreateKeepsInv(repository.State(), alert);
      var stored, created := repository.CreateOnce(alert);
      if !(created && m.risk >= config.sarThreshold && config.clientEnabled) {
        NothingRemains(config, System(repository.State(), ledger, map[], []), clock, valid, outcome, 2);
        return Ok(Some(stored));
      }
      r := EnhanceNarrative(stored, clock, valid, outcome);
    }

    method EnhanceNarrative(alert: Alert, clock: nat -> real, valid: bool, outcome: Outcome)
      returns (r: Result<Option<Alert>, Failure>)
      requires DbInv(repository.State())
      requires alert.facts.id in repository.rows && repository.rows[alert.facts.id] == alert
      modifies repository, budget
      ensures var n := Remaining(config, Solo(old(repository.State()), old(budget.State()),
                                              Preparing(alert.facts.id, alert.facts.txn), []),
                                 clock, valid, outcome, 2);
              && repository.State() == n.db && budget.State() == n.ledger && 0 !in n.tasks
              && (r == Err(Interrupted) <==> outcome.Cancelled? && n.calls != [])
      ensures r != Err(InvalidScore)
      ensures r.Ok? ==> var t := alert.facts.txn;
                        && r.value.Some? && t in repository.byTxn && repository.byTxn[t] in repository.rows
                        && r.value.value == repository.rows[repository.byTxn[t]]
    {
      hide Remaining, DbInv, Budget.Decide, Budget.ReserveStep;
      var id, txn := alert.facts.id, alert.facts.txn;
      ghost var db, ledger := repository.State(), budget.State();
      OneStep(config, db, ledger, Preparing(id, txn), [], clock, valid, outcome, 2);
      if !valid {
        Replace(Preparing(id, txn), Recording(id, txn, None, InvalidModelEvidence));
        r := Conclude(id, txn, None, InvalidModelEvidence, [], clock, valid, outcome, 3);
        return;
      }
      var decision := budget.Reserve(txn, config.policy, clock(2));
      if !decision.Granted? {
        DenialChangesNothing(ledger, txn, config.policy, clock(2));
        Replace(Preparing(id, txn), Recording(id, txn, None, DenialReason(decision)));
        r := Conclude(id, txn, None, DenialReason(decision), [], clock, valid, outcome, 3);
        return;
      }
      Replace(Preparing(id, txn), Calling(id, txn));
      r := CallModel(id, txn, clock, valid, outcome);
    }

    method CallModel(id: string, txn: string, clock: nat -> real, ghost valid: bool, outcome: Outcome)
      returns (r: Result<Option<Alert>, Failure>)
      requires DbInv(repository.State()) && id in repository.rows && repository.rows[id].facts.txn == txn
      modifies repository, budget
      ensures var n := Remaining(config, Solo(old(repository.State()), old(budget.State()), Calling(id, txn), []),
                                 clock, valid, outcome, 3);
              && repository.State() == n.db && budget.State() == n.ledger && 0 !in n.tasks
              && n.calls == [Call(txn, id)] && (r == Err(Interrupted) <==> outcome.Cancelled?)
      ensures r != Err(InvalidScore)
      ensures r.Ok? ==> && r.value.Some? && txn in repository.byTxn && repository.byTxn[txn] in repository.rows
                        && r.value.value == repository.rows[repository.byTxn[txn]]
    {
      hide Remaining, DbInv, Budget.FinishStep;
      ghost var db, ledger := repository.State(), budget.State();
      ghost var calls := [Call(txn, id)];
      ghost var t := Returned(id, txn, outcome);
      OneStep(config, db, ledger, Calling(id, txn), [], clock, valid, outcome, 3);
      Replace(Calling(id, txn), Awaiting(id, txn));
      assert [] + calls == calls;
      OneStep(config, db, ledger, Awaiting(id, txn), calls, clock, valid, outcome, 4);
      Replace(Awaiting(id, txn), t);
      OneStep(config, db, ledger, t, calls, clock, valid, outcome, 5);
      if outcome.Cancelled? {
        budget.Finish(txn, false, "cancelled", config.policy, clock(5));
        Replace(t, t);
        NothingRemains(config, System(db, budget.State(), map[], calls), clock, valid, outcome, 6);
        return Err(Interrupted);
      }
      var draft, reason := None, AiFailedOrTimedOut;
      if outcome.Completed? {
        draft, reason := Some(ModelDraft(outcome.text)), AiCompleted;
      }
      budget.Finish(txn, draft.Some?, if draft.Some? then "ai_completed" else "ai_failed_or_timed_out",
                    config.policy, clock(5));
      Replace(t, Recording(id, txn, draft, reason));
      r := Conclude(id, txn, draft, reason, calls, clock, valid, outcome, 6);
    }

    method Conclude(id: string, txn: string, draft: Option<Narrative>, reason: Reason, ghost calls: seq<Call>,
                    clock: nat -> real, ghost valid: bool, ghost outcome: Outcome, at: nat)
      returns (r: Result<Option<Alert>, Failure>)
      requires DbInv(repository.State()) && id in repository.rows && repository.rows[id].facts.txn == txn && at <= 6
      modifies repository
      ensures var n := Remaining(config, Solo(old(repository.State()), budget.State(),
                                              Recording(id, txn, draft, reason), calls),
                                 clock, valid, outcome, at);
              repository.State() == n.db && budget.State() == n.ledger && 0 !in n.tasks && n.calls == calls
      ensures && r.Ok? && r.value.Some? && txn in repository.byTxn && repository.byTxn[txn] in repository.rows
              && r.value.value == repository.rows[repository.byTxn[txn]]
    {
      hide Remaining, DbInv, FinishNarrativeStep;
      ghost var db, ledger, t := repository.State(), budget.State(), Recording(id, txn, draft, reason);
      var model := if draft.Some? then Some(config.modelName) else None;
      OneStep(config, db, ledger, t, calls, clock, valid, outcome, at);
      Replace(t, t);
      StillIndexed(db, id, draft, model, reason, clock(at));
      var done := repository.FinishNarrative(id, draft, model, reason, clock(at));
      NothingRemains(config, System(repository.State(), ledger, map[], calls), clock, valid, outcome, at + 1);
      r := Ok(Some(done.value));
    }
  }
}
