/** Operations are accepted once: what a recorded key answers, now and for ever. */
module Replay {
  import opened Wrappers
  import opened Tables
  import opened Growth
  import opened Transactions
  import opened Acceptance
  import Clock
  import Guarantees
  import Notification
  import Permanence
  import Queue
  import RelayRuns
  import RelaySystem
  import Reports

  // ---------------------------------------------------------------- what is stored stays

  lemma RecipientsStable(db: Db, next: Db, m: Id, route: Route)
    requires Linked(db) && Onward(db, next) && m in db.messages
    ensures RecipientsOf(next, m, route) == RecipientsOf(db, m, route)
  {
    forall t | t in RecipientsOf(db, m, route) ensures t in RecipientsOf(next, m, route) {
      var id :| id in db.deliveries && db.deliveries[id].message == m && db.deliveries[id].route == route
                && db.deliveries[id].recipient == t;
      assert id in next.deliveries && RowOnward(db.deliveries[id], next.deliveries[id]);
    }
    forall t | t in RecipientsOf(next, m, route) ensures t in RecipientsOf(db, m, route) {
      var id :| id in next.deliveries && next.deliveries[id].message == m && next.deliveries[id].route == route
                && next.deliveries[id].recipient == t;
      assert id in db.deliveries && RowOnward(db.deliveries[id], next.deliveries[id]);
    }
  }

  lemma StoredStable(db: Db, next: Db, m: Id)
    requires Linked(db) && Onward(db, next) && m in db.messages
    ensures m in next.messages && next.messages[m].blob in next.blobs
    ensures db.messages[m].blob in db.blobs && Stored(next, m) == Stored(db, m)
  {
    assert MessageOk(db, m);
    RecipientsStable(db, next, m, Local);
    RecipientsStable(db, next, m, Relay);
  }

  /** The operation is recorded as message `m` with these terms. */
  ghost predicate Recorded(db: Db, op: Id, m: Id, terms: Terms) {
    && Operation(op) in db.keys && db.keys[Operation(op)] == m
    && m in db.messages && db.messages[m].blob in db.blobs && Stored(db, m) == terms
  }

  lemma RecordedStays(db: Db, next: Db, op: Id, m: Id, terms: Terms)
    requires Linked(db) && Onward(db, next) && Recorded(db, op, m, terms)
    ensures Recorded(next, op, m, terms)
  {
    StoredStable(db, next, m);
  }

  /** A key never names two messages. */
  lemma RecordedOnce(db: Db, op: Id, m: Id, terms: Terms, other: Id)
    requires Linked(db) && Recorded(db, op, m, terms)
    requires other in db.messages && db.messages[other].key == Operation(op)
    ensures other == m
  {
    assert MessageOk(db, other);
  }

  // ---------------------------------------------------------------- one call

  lemma NewIsRecorded(db: Db, q: Request, p: Prepared, ids: Fresh, now: int)
    requires Linked(db) && AcceptNew(db, q, p, ids, now).Ok?
    ensures var next := AcceptNew(db, q, p, ids, now).value;
            && Recorded(next, q.plan.operation, ids.message, Asked(q, p))
            && next.messages[ids.message].source == if q.Plain? then Smtp else Submission
  {
    AcceptNewGrows(db, q, p, ids, now);
  }

  /** A transaction that goes through finds the operation recorded or inserts it. */
  lemma AcceptTxIs(db: Db, q: Request, p: Prepared, ids: Fresh, r: Clock.Reading)
    requires AcceptTx(db, q, p, ids, r).Ok?
    ensures var (next, receipt) := AcceptTx(db, q, p, ids, r).value;
            if receipt.alreadyCommitted then next == db && Recorded(db, q.plan.operation, receipt.message, Asked(q, p))
            else receipt.message == ids.message && r.wall.Some? && AcceptNew(db, q, p, ids, r.wall.value) == Ok(next)
  {
    if Operation(q.plan.operation) in db.keys {
      assert AcceptTx(db, q, p, ids, r) == Ok((db, KnownAnswer(db, q, p).value));
    } else {
      var done := AcceptNew(db, q, p, ids, r.wall.value);
      assert AcceptTx(db, q, p, ids, r) == Ok((done.value, Receipt(ids.message, false)));
    }
  }

  /** Every applied acceptance is recorded exactly as asked, whether or not its answer arrived. */
  lemma AppliedIsRecorded(db: Db, q: Request, p: Prepared, ids: Fresh, r: Clock.Reading, fate: Fate)
    requires Linked(db) && AcceptTx(db, q, p, ids, r).Ok? && fate != LostUnknown
    ensures Recorded(Accept(db, q, p, ids, r, fate).0, q.plan.operation, AcceptTx(db, q, p, ids, r).value.1.message,
                     Asked(q, p))
  {
    AcceptTxIs(db, q, p, ids, r);
    if !AcceptTx(db, q, p, ids, r).value.1.alreadyCommitted {
      NewIsRecorded(db, q, p, ids, r.wall.value);
    }
  }

  /** ... and so is every one that is answered with success. */
  lemma AnswerIsRecorded(db: Db, q: Request, p: Prepared, ids: Fresh, r: Clock.Reading, fate: Fate)
    requires Linked(db) && Accept(db, q, p, ids, r, fate).1.Ok?
    ensures var (next, answer) := Accept(db, q, p, ids, r, fate);
            Recorded(next, q.plan.operation, answer.value.message, Asked(q, p))
  {
    AcceptTxIs(db, q, p, ids, r);
    if !AcceptTx(db, q, p, ids, r).value.1.alreadyCommitted {
      NewIsRecorded(db, q, p, ids, r.wall.value);
    }
  }

  /** What a recorded key answers to any later request: the same receipt, or a conflict; nothing changes. */
  lemma RecordedAnswers(db: Db, q: Request, p: Prepared, ids: Fresh, r: Clock.Reading, fate: Fate, m: Id, terms: Terms)
    requires Recorded(db, q.plan.operation, m, terms)
    ensures Accept(db, q, p, ids, r, fate) == (db, AcceptAnswer(db, q, p, m, terms))
  {
  }

  lemma RecordedRefusesImport(db: Db, plan: QueuePlan, p: Prepared, ids: Fresh, r: Clock.Reading, fate: Fate, m: Id,
                              terms: Terms)
    requires Linked(db) && Recorded(db, plan.operation, m, terms)
    ensures Enqueue(db, plan, p, ids, r, fate)
            == (db, ImportAnswer(plan, p, r, m, db.messages[m].source == Import, terms))
  {
    assert MessageOk(db, m);
  }

  /** Every applied enqueue, whether or not its answer arrived, is recorded as an import with the asked terms. */
  lemma AppliedImportIsRecorded(db: Db, plan: QueuePlan, p: Prepared, ids: Fresh, r: Clock.Reading, fate: Fate)
    returns (terms: Terms)
    requires Linked(db) && EnqueueTx(db, plan, p, ids, r).Ok? && fate != LostUnknown
    ensures var next, m := Enqueue(db, plan, p, ids, r, fate).0, EnqueueTx(db, plan, p, ids, r).value.1.message;
            && Recorded(next, plan.operation, m, terms) && next.messages[m].source == Import
            && terms.(local := {}) == Enqueued(plan, p)
  {
    var next, m := Enqueue(db, plan, p, ids, r, fate).0, EnqueueTx(db, plan, p, ids, r).value.1.message;
    if EnqueueTx(db, plan, p, ids, r).value.1.alreadyCommitted {
      assert MessageOk(db, m);
    } else {
      EnqueueNewGrows(db, plan, p, ids, r.wall.value);
    }
    terms := Stored(next, m);
  }

  // ---------------------------------------------------------------- keys do not cross

  /** The three kinds of operation only ever resolve to messages of their own kind. */
  lemma AskedKind(db: Db, q: Request, p: Prepared, m: Id)
    requires Linked(db) && Recorded(db, q.plan.operation, m, Asked(q, p))
    ensures db.messages[m].source == if q.Plain? then Smtp else Submission
  {
    assert MessageOk(db, m);
  }

  lemma AcceptFindsItsOwn(db: Db, q: Request, p: Prepared, ids: Fresh, r: Clock.Reading, fate: Fate)
    requires Linked(db) && Accept(db, q, p, ids, r, fate).1.Ok?
             && Accept(db, q, p, ids, r, fate).1.value.alreadyCommitted
    ensures var m := Accept(db, q, p, ids, r, fate).1.value.message;
            m in db.messages && db.messages[m].source == if q.Plain? then Smtp else Submission
  {
    AcceptTxIs(db, q, p, ids, r);
    AskedKind(db, q, p, AcceptTx(db, q, p, ids, r).value.1.message);
  }

  lemma EnqueueFindsItsOwn(db: Db, plan: QueuePlan, p: Prepared, ids: Fresh, r: Clock.Reading, fate: Fate)
    requires Linked(db) && Enqueue(db, plan, p, ids, r, fate).1.Ok?
    ensures var (next, answer) := Enqueue(db, plan, p, ids, r, fate);
            answer.value.message in next.messages && next.messages[answer.value.message].source == Import
  {
    if fate != LostUnknown {
      var terms := AppliedImportIsRecorded(db, plan, p, ids, r, fate);
    }
  }

  lemma NewReportLinks(db: Db, plan: Notification.Plan, p: Prepared, delivery: Id, now: int)
    requires Notification.CommitNew(db, plan, p, delivery, now).Ok?
    ensures var next := Notification.CommitNew(db, plan, p, delivery, now).value;
            plan.delivery in next.notifications && next.notifications[plan.delivery] == plan.report
  {
    Reports.CommitSplits(db, plan, p, delivery, now);
  }

  lemma ReportLinks(s: Queue.Store, plan: Notification.Plan, p: Prepared, delivery: Id, r: Clock.Reading, fate: Fate)
    requires Notification.CommitReport(s, plan, p, delivery, r, fate).1.Ok?
    ensures var (t, answer) := Notification.CommitReport(s, plan, p, delivery, r, fate);
            plan.delivery in t.db.notifications && t.db.notifications[plan.delivery] == answer.value.message
  {
    if plan.delivery !in s.db.notifications {
      NewReportLinks(s.db, plan, p, delivery, Queue.Ticked(s, r).1.value);
    }
  }

  lemma ReportFindsItsOwn(s: Queue.Store, plan: Notification.Plan, p: Prepared, delivery: Id, r: Clock.Reading,
                          fate: Fate)
    requires DbOk(s.db) && Notification.CommitReport(s, plan, p, delivery, r, fate).1.Ok?
    ensures var (t, answer) := Notification.CommitReport(s, plan, p, delivery, r, fate);
            && answer.value.message in t.db.messages && t.db.messages[answer.value.message].source == Dsn
            && t.db.messages[answer.value.message].key == Report(plan.delivery)
            && plan.delivery in t.db.notifications && t.db.notifications[plan.delivery] == answer.value.message
  {
    var (t, answer) := Notification.CommitReport(s, plan, p, delivery, r, fate);
    assert DbOk(t.db) by {
      CommitReportSound(s, plan, p, delivery, r, fate, {});
    }
    ReportLinks(s, plan, p, delivery, r, fate);
    assert Reports.ReportOk(t.db, plan.delivery);
    assert MessageOk(t.db, answer.value.message);
  }

  // ---------------------------------------------------------------- over whole runs

  /** What a request is answered whose key is recorded with these terms. */
  function AcceptAnswer(db: Db, q: Request, p: Prepared, m: Id, terms: Terms): Result<Receipt, StoreError> {
    if !ValidRequest(q) then Err(InvalidInput)
    else if !Permitted(db, q) then Err(PermissionDenied)
    else if terms == Asked(q, p) then Ok(Receipt(m, true))
    else Err(IdempotencyConflict)
  }

  /** What an import is answered whose key is recorded with these terms. */
  function ImportAnswer(plan: QueuePlan, p: Prepared, r: Clock.Reading, m: Id, imported: bool, terms: Terms)
    : Result<Receipt, StoreError>
  {
    if !ValidQueuePlan(plan) || r.wall.None? then Err(InvalidInput)
    else if imported && terms.(local := {}) == Enqueued(plan, p) then Ok(Receipt(m, true))
    else Err(IdempotencyConflict)
  }

  /** The key stands for this one message, with these terms and of this kind. */
  ghost predicate Stands(db: Db, op: Id, m: Id, terms: Terms, source: Source) {
    && Recorded(db, op, m, terms) && db.messages[m].source == source
    && forall x :: x in db.messages && db.messages[x].key == Operation(op) ==> x == m
  }

  lemma StandsFrom(db: Db, next: Db, op: Id, m: Id, terms: Terms)
    requires Linked(db) && Linked(next) && Onward(db, next) && Recorded(db, op, m, terms)
    ensures Stands(next, op, m, terms, db.messages[m].source)
  {
    RecordedStays(db, next, op, m, terms);
    forall x | x in next.messages && next.messages[x].key == Operation(op) ensures x == m {
      RecordedOnce(next, op, m, terms, x);
    }
  }

  /** What a recorded key stands for never changes in any continuation of a run. */
  lemma KeyStands(policy: Queue.Policy, steps: seq<RelaySystem.Step>, more: seq<RelaySystem.Step>, op: Id, m: Id,
                  terms: Terms)
    requires Recorded(RelaySystem.Run(policy, steps).store.db, op, m, terms)
    ensures Linked(RelaySystem.Run(policy, steps + more).store.db)
    ensures Stands(RelaySystem.Run(policy, steps + more).store.db, op, m, terms,
                   RelaySystem.Run(policy, steps).store.db.messages[m].source)
  {
    Guarantees.RunsAreGood(policy, steps);
    Guarantees.RunsAreGood(policy, steps + more);
    Permanence.RunOnward(policy, steps, more);
    StandsFrom(RelaySystem.Run(policy, steps).store.db, RelaySystem.Run(policy, steps + more).store.db, op, m, terms);
  }

  lemma AfterMail(policy: Queue.Policy, steps: seq<RelaySystem.Step>, step: RelaySystem.Step)
    ensures var db := RelaySystem.Run(policy, steps).store.db;
            var next := RelaySystem.Run(policy, steps + [step]).store.db;
            && (step.Accept? ==> next == Accept(db, step.q, step.p, step.ids, step.r, step.fate).0)
            && (step.Enqueue? ==> next == Enqueue(db, step.plan, step.p, step.ids, step.r, step.fate).0)
  {
    assert (steps + [step])[..|steps|] == steps;
    RelaySystem.DoCases(policy, RelaySystem.Run(policy, steps), step);
    RelayRuns.StoredMail(RelaySystem.Run(policy, steps), step);
  }

  /** An applied acceptance of a run, answered or not, stands from then on. */
  lemma AcceptStands(policy: Queue.Policy, steps: seq<RelaySystem.Step>, step: RelaySystem.Step,
                     more: seq<RelaySystem.Step>)
    requires step.Accept? && step.fate != LostUnknown
    requires AcceptTx(RelaySystem.Run(policy, steps).store.db, step.q, step.p, step.ids, step.r).Ok?
    ensures var m := AcceptTx(RelaySystem.Run(policy, steps).store.db, step.q, step.p, step.ids,
                              step.r).value.1.message;
            var db := RelaySystem.Run(policy, steps + [step] + more).store.db;
            Linked(db) && Stands(db, step.q.plan.operation, m, Asked(step.q, step.p),
                                 if step.q.Plain? then Smtp else Submission)
  {
    var db := RelaySystem.Run(policy, steps).store.db;
    var m := AcceptTx(db, step.q, step.p, step.ids, step.r).value.1.message;
    assert Linked(db) by {
      Guarantees.RunsAreGood(policy, steps);
    }
    AfterMail(policy, steps, step);
    AppliedIsRecorded(db, step.q, step.p, step.ids, step.r, step.fate);
    AppliedKind(db, step.q, step.p, step.ids, step.r, step.fate);
    KeyStands(policy, steps + [step], more, step.q.plan.operation, m, Asked(step.q, step.p));
  }

  lemma AppliedKind(db: Db, q: Request, p: Prepared, ids: Fresh, r: Clock.Reading, fate: Fate)
    requires Linked(db) && AcceptTx(db, q, p, ids, r).Ok? && fate != LostUnknown
    ensures var next, m := Accept(db, q, p, ids, r, fate).0, AcceptTx(db, q, p, ids, r).value.1.message;
            m in next.messages && next.messages[m].source == if q.Plain? then Smtp else Submission
  {
    AcceptTxIs(db, q, p, ids, r);
    if AcceptTx(db, q, p, ids, r).value.1.alreadyCommitted {
      AskedKind(db, q, p, AcceptTx(db, q, p, ids, r).value.1.message);
    } else {
      NewIsRecorded(db, q, p, ids, r.wall.value);
    }
  }

  /**
   * Once an acceptance of a run was applied, whether or not its answer arrived, every later retry with
   * the same terms is answered with the same receipt and every differing one conflicts, an import under
   * its key included; nothing changes, and the message stays the only one of its key with its deliveries.
   */
  lemma RetriesConverge(policy: Queue.Policy, steps: seq<RelaySystem.Step>, step: RelaySystem.Step,
                        more: seq<RelaySystem.Step>,
                        q: Request, plan: QueuePlan, p: Prepared, ids: Fresh, r: Clock.Reading, fate: Fate)
    requires step.Accept? && step.fate != LostUnknown
    requires AcceptTx(RelaySystem.Run(policy, steps).store.db, step.q, step.p, step.ids, step.r).Ok?
    requires q.plan.operation == step.q.plan.operation == plan.operation
    ensures var m := AcceptTx(RelaySystem.Run(policy, steps).store.db, step.q, step.p, step.ids,
                              step.r).value.1.message;
            var db := RelaySystem.Run(policy, steps + [step] + more).store.db;
            var terms := Asked(step.q, step.p);
            && Stands(db, plan.operation, m, terms, if step.q.Plain? then Smtp else Submission)
            && Accept(db, q, p, ids, r, fate) == (db, AcceptAnswer(db, q, p, m, terms))
            && Enqueue(db, plan, p, ids, r, fate) == (db, ImportAnswer(plan, p, r, m, false, terms))
  {
    var m := AcceptTx(RelaySystem.Run(policy, steps).store.db, step.q, step.p, step.ids, step.r).value.1.message;
    var db := RelaySystem.Run(policy, steps + [step] + more).store.db;
    AcceptStands(policy, steps, step, more);
    RecordedAnswers(db, q, p, ids, r, fate, m, Asked(step.q, step.p));
    RecordedRefusesImport(db, plan, p, ids, r, fate, m, Asked(step.q, step.p));
  }

  /** An applied enqueue of a run stands from then on. */
  lemma ImportStands(policy: Queue.Policy, steps: seq<RelaySystem.Step>, step: RelaySystem.Step,
                     more: seq<RelaySystem.Step>)
    returns (terms: Terms)
    requires step.Enqueue? && step.fate != LostUnknown
    requires EnqueueTx(RelaySystem.Run(policy, steps).store.db, step.plan, step.p, step.ids, step.r).Ok?
    ensures var m := EnqueueTx(RelaySystem.Run(policy, steps).store.db, step.plan, step.p, step.ids,
                               step.r).value.1.message;
            var db := RelaySystem.Run(policy, steps + [step] + more).store.db;
            && Linked(db) && Stands(db, step.plan.operation, m, terms, Import)
            && terms.(local := {}) == Enqueued(step.plan, step.p)
  {
    var db := RelaySystem.Run(policy, steps).store.db;
    var m := EnqueueTx(db, step.plan, step.p, step.ids, step.r).value.1.message;
    assert Linked(db) by {
      Guarantees.RunsAreGood(policy, steps);
    }
    AfterMail(policy, steps, step);
    terms := AppliedImportIsRecorded(db, step.plan, step.p, step.ids, step.r, step.fate);
    KeyStands(policy, steps + [step], more, step.plan.operation, m, terms);
  }

  /** ... and converges the same way: same terms, same receipt; anything else, an accept included, is refused. */
  lemma ImportsConverge(policy: Queue.Policy, steps: seq<RelaySystem.Step>, step: RelaySystem.Step,
                        more: seq<RelaySystem.Step>,
                        q: Request, plan: QueuePlan, p: Prepared, ids: Fresh, r: Clock.Reading, fate: Fate)
    requires step.Enqueue? && step.fate != LostUnknown
    requires EnqueueTx(RelaySystem.Run(policy, steps).store.db, step.plan, step.p, step.ids, step.r).Ok?
    requires q.plan.operation == step.plan.operation == plan.operation
    ensures var m := EnqueueTx(RelaySystem.Run(policy, steps).store.db, step.plan, step.p, step.ids,
                               step.r).value.1.message;
            var db := RelaySystem.Run(policy, steps + [step] + more).store.db;
            && (exists terms :: Stands(db, plan.operation, m, terms, Import))
            && Enqueue(db, plan, p, ids, r, fate)
               == (db, if !ValidQueuePlan(plan) || r.wall.None? then Err(InvalidInput)
                       else if Enqueued(plan, p) == Enqueued(step.plan, step.p) then Ok(Receipt(m, true))
                       else Err(IdempotencyConflict))
            && Accept(db, q, p, ids, r, fate).0 == db && Accept(db, q, p, ids, r, fate).1.Err?
  {
    var m := EnqueueTx(RelaySystem.Run(policy, steps).store.db, step.plan, step.p, step.ids, step.r).value.1.message;
    var db := RelaySystem.Run(policy, steps + [step] + more).store.db;
    var terms := ImportStands(policy, steps, step, more);
    RecordedRefusesImport(db, plan, p, ids, r, fate, m, terms);
    ImportRefusesAccept(db, q, p, ids, r, fate, m, terms);
  }

  lemma ImportRefusesAccept(db: Db, q: Request, p: Prepared, ids: Fresh, r: Clock.Reading, fate: Fate, m: Id,
                            terms: Terms)
    requires Linked(db) && Recorded(db, q.plan.operation, m, terms) && db.messages[m].source == Import
    ensures Accept(db, q, p, ids, r, fate).0 == db && Accept(db, q, p, ids, r, fate).1.Err?
  {
    RecordedAnswers(db, q, p, ids, r, fate, m, terms);
    assert MessageOk(db, m);
  }
}
