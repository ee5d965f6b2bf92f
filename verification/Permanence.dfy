/** What no step of any run takes back: mail, terminal states, reports, and lost authority. */
module Permanence {
  import opened Wrappers
  import opened Tables
  import opened Moves
  import opened Ordering
  import opened Transactions
  import opened RelaySystem
  import Acceptance
  import Addresses
  import Clock
  import Growth
  import Guarantees
  import Identity
  import LocalDelivery
  import Notification
  import Queue
  import RelayRuns
  import Reports

  lemma OnwardSelf(db: Db)
    ensures Onward(db, db)
  {
  }

  // ---------------------------------------------------------------- steps that are not a single transaction

  lemma ScanOnward(s: Queue.Store, ctx: Queue.Context)
    requires ctx.policy.Valid() && DbOk(s.db)
    ensures var scan := Queue.Scan(Queue.Claimed(s.db, [], 0), Queue.ReadyBatch(s, ctx.now), ctx);
            scan.Ok? ==> Onward(s.db, scan.value.tx)
  {
    var scan := Queue.Scan(Queue.Claimed(s.db, [], 0), Queue.ReadyBatch(s, ctx.now), ctx);
    if scan.Ok? {
      ClaimScans(s, ctx);
      ScannedSound(s.db, scan.value, ctx, {});
    }
  }

  /** A claim proper writes nothing, or what its scan made of the rows. */
  lemma ClaimDueWrites(s: Queue.Store, ctx: Queue.Context, fate: Fate)
    requires ctx.policy.Valid()
    ensures var scan := Queue.Scan(Queue.Claimed(s.db, [], 0), Queue.ReadyBatch(s, ctx.now), ctx);
            var db := Queue.ClaimDue(s, ctx, fate).0.db;
            db == s.db || (scan.Ok? && db == scan.value.tx)
  {
    Queue.ClaimDueIs(s, ctx, fate);
  }

  lemma ClaimDueOnward(s: Queue.Store, ctx: Queue.Context, fate: Fate)
    requires ctx.policy.Valid() && DbOk(s.db)
    ensures Onward(s.db, Queue.ClaimDue(s, ctx, fate).0.db)
  {
    OnwardSelf(s.db);
    ClaimDueWrites(s, ctx, fate);
    ScanOnward(s, ctx);
  }

  lemma ThenExpireOnward(recovered: (Queue.Store, Result<nat, StoreError>), o: Queue.Order, w: Queue.Weather)
    requires o.policy.Valid() && DbOk(recovered.0.db)
    ensures Onward(recovered.0.db, Queue.ThenExpire(recovered, o, w).0.db)
  {
    OnwardSelf(recovered.0.db);
    if recovered.1.Ok? {
      var expired := Queue.Expire(recovered.0, Queue.BATCH, w.expiry, w.expiryFate);
      ExpireSound(recovered.0, Queue.BATCH, w.expiry, w.expiryFate, {});
      if expired.1.Ok? {
        var t := expired.0;
        var ctx := Queue.ClaimContext(t, o.policy, o.limit, o.live, o.now, o.draws, o.serial);
        ClaimDueOnward(t, ctx, w.fate);
        OnwardTransitive(recovered.0.db, t.db, Queue.ClaimDue(t, ctx, w.fate).0.db);
      }
    }
  }

  lemma ClaimOnward(s: Queue.Store, policy: Queue.Policy, limit: nat, live: set<nat>, w: Queue.Weather,
                    draws: seq<Queue.Draw>, serial: nat)
    requires DbOk(s.db)
    ensures Onward(s.db, Queue.Claim(s, policy, limit, live, w, draws, serial).0.db)
  {
    OnwardSelf(s.db);
    var ticked := Queue.Ticked(s, w.first);
    if policy.Valid() && 1 <= limit <= Queue.BATCH && ticked.1.Ok? {
      var recovered := Queue.Recover(ticked.0, Queue.BATCH, live, w.recovery, w.recoveryFate);
      RecoverSound(ticked.0, Queue.BATCH, live, w.recovery, w.recoveryFate, {});
      var o := Queue.Order(policy, limit, live, ticked.1.value, draws, serial);
      ThenExpireOnward(recovered, o, w);
      OnwardTransitive(s.db, recovered.0.db, Queue.ThenExpire(recovered, o, w).0.db);
    }
  }

  lemma {:induction false} IssueKeepsStore(s: Sys, leases: seq<Queue.Lease>)
    ensures Issue(s, leases).store == s.store
    decreases |leases|
  {
    if leases != [] {
      IssueKeepsStore(IssueOne(s, leases[0]), leases[1..]);
    }
  }

  lemma ClaimedIs(policy: Queue.Policy, s: Sys, limit: nat, w: Queue.Weather, draws: seq<Queue.Draw>)
    ensures Claimed(policy, s, limit, w, draws).store
            == Queue.Claim(s.store, policy, limit, Live(s), w, draws, s.serial).0
  {
    var (t, leases) := Queue.Claim(s.store, policy, limit, Live(s), w, draws, s.serial);
    if leases.Ok? {
      IssueKeepsStore(s.(store := t), leases.value);
    }
  }

  lemma MarkOnward(s: Queue.Store, lease: Queue.Lease, fate: Fate)
    ensures Onward(s.db, Queue.MarkBody(s, lease, fate).0.db)
  {
  }

  /** What `queue_finish` writes, whatever it is given: at most the row of a valid lease. */
  lemma FinishWrites(s: Queue.Store, lease: Queue.Lease, outcome: Queue.QueueResult,
                     r: Clock.Reading, guarded: Clock.Reading, fate: Fate) returns (d: Delivery)
    ensures var db := Queue.Finish(s, lease, outcome, r, guarded, fate).0.db;
            || db == s.db
            || (&& lease.id in s.db.deliveries && s.db.deliveries[lease.id].state == Leased
                && SameMail(s.db.deliveries[lease.id], d)
                && db == Queue.Put(s.db, lease.id, d).(leases := s.db.leases - {lease.id}))
  {
    var db := Queue.Finish(s, lease, outcome, r, guarded, fate).0.db;
    if lease.id in db.deliveries {
      d := db.deliveries[lease.id];
    } else {
      d := *;
    }
  }

  lemma LeasedPutOnward(db: Db, id: Id, d: Delivery)
    requires RowsOk(db) && id in db.deliveries && db.deliveries[id].state == Leased
    requires SameMail(db.deliveries[id], d)
    ensures Onward(db, Queue.Put(db, id, d).(leases := db.leases - {id}))
  {
    assert RowOk(ViewOf(db, id));
  }

  lemma FinishOnward(s: Queue.Store, lease: Queue.Lease, outcome: Queue.QueueResult,
                     r: Clock.Reading, guarded: Clock.Reading, fate: Fate)
    requires RowsOk(s.db)
    ensures Onward(s.db, Queue.Finish(s, lease, outcome, r, guarded, fate).0.db)
  {
    OnwardSelf(s.db);
    var d := FinishWrites(s, lease, outcome, r, guarded, fate);
    if Queue.Finish(s, lease, outcome, r, guarded, fate).0.db != s.db {
      LeasedPutOnward(s.db, lease.id, d);
    }
  }

  /** The three steps of an attempt that touch the store. */
  lemma AttemptedStore(s: Sys, step: Step)
    requires OfAttempt(step) && step.n in s.attempts
    ensures var a, t := s.attempts[step.n], Attempted(s, step, step.n).store;
            || t == s.store
            || (step.MarkBody? && t == Queue.MarkBody(s.store, a.lease, step.fate).0)
            || (step.Renew? && t == Queue.Renew(s.store, a.lease, 300, step.r, step.fate).0)
            || (step.Finish? && a.stage.Done?
                && t == Queue.Finish(s.store, a.lease, a.stage.result, step.r, step.guarded, step.fate).0)
  {
  }

  lemma AttemptOnward(s: Sys, step: Step)
    requires DbOk(s.store.db) && OfAttempt(step) && step.n in s.attempts
    ensures Onward(s.store.db, Attempted(s, step, step.n).store.db)
  {
    AttemptedStore(s, step);
    OnwardSelf(s.store.db);
    var a := s.attempts[step.n];
    if Attempted(s, step, step.n).store != s.store {
      if step.MarkBody? {
        MarkOnward(s.store, a.lease, step.fate);
      } else if step.Finish? {
        FinishOnward(s.store, a.lease, a.stage.result, step.r, step.guarded, step.fate);
      } else {
        RenewSound(s.store, a.lease, 300, step.r, step.fate, {});
      }
    }
  }

  lemma StoredOnward(s: Sys, step: Step)
    requires Good(s) && !OfAttempt(step) && !step.Claim? && !step.Crash? && !step.DropReader?
    ensures Onward(s.store.db, Stored(s, step).db)
  {
    Guarantees.DatabaseStepKeeps(s, step);
  }

  lemma ClaimedOnward(policy: Queue.Policy, s: Sys, limit: nat, w: Queue.Weather, draws: seq<Queue.Draw>)
    requires DbOk(s.store.db)
    ensures Onward(s.store.db, Claimed(policy, s, limit, w, draws).store.db)
  {
    ClaimedIs(policy, s, limit, w, draws);
    ClaimOnward(s.store, policy, limit, Live(s), w, draws, s.serial);
  }

  /** Every step only adds. */
  lemma StepOnward(policy: Queue.Policy, s: Sys, step: Step)
    requires Good(s)
    ensures Onward(s.store.db, Do(policy, s, step).store.db)
  {
    DoCases(policy, s, step);
    OnwardSelf(s.store.db);
    if OfAttempt(step) {
      if step.n in s.attempts {
        AttemptOnward(s, step);
      }
    } else if step.Claim? {
      ClaimedOnward(policy, s, step.limit, step.weather, step.draws);
    } else if !step.Crash? && !step.DropReader? {
      StoredOnward(s, step);
    }
  }

  /** A run continued from any good state only adds. */
  lemma {:induction false} OnwardFrom(policy: Queue.Policy, s: Sys, more: seq<Step>)
    requires Good(s)
    ensures Good(RunFrom(policy, s, more)) && Onward(s.store.db, RunFrom(policy, s, more).store.db)
  {
    if more == [] {
      OnwardSelf(s.store.db);
    } else {
      var n := |more| - 1;
      OnwardFrom(policy, s, more[..n]);
      OnwardOnce(policy, s.store.db, RunFrom(policy, s, more[..n]), more[n]);
    }
  }

  lemma OnwardOnce(policy: Queue.Policy, db: Db, s: Sys, step: Step)
    requires Good(s) && Onward(db, s.store.db)
    ensures Good(Do(policy, s, step)) && Onward(db, Do(policy, s, step).store.db)
  {
    Guarantees.StepKeeps(policy, s, step);
    StepOnward(policy, s, step);
    OnwardTransitive(db, s.store.db, Do(policy, s, step).store.db);
  }

  lemma RunOnward(policy: Queue.Policy, steps: seq<Step>, more: seq<Step>)
    ensures Onward(Run(policy, steps).store.db, Run(policy, steps + more).store.db)
  {
    Guarantees.RunsAreGood(policy, steps);
    OnwardFrom(policy, Run(policy, steps), more);
    RunContinues(policy, steps, more);
  }

  // ---------------------------------------------------------------- what that means

  /** Delivered, failed and closed rows keep their state for ever; closed ones stay uncertain. */
  lemma TerminalForever(policy: Queue.Policy, steps: seq<Step>, more: seq<Step>, id: Id)
    requires id in Run(policy, steps).store.db.deliveries
    requires Terminal(Run(policy, steps).store.db.deliveries[id])
    ensures id in Run(policy, steps + more).store.db.deliveries
    ensures var d, e := Run(policy, steps).store.db.deliveries[id], Run(policy, steps + more).store.db.deliveries[id];
            && e.state == d.state && e.closedAt == d.closedAt && d.state in {Delivered, Failed, Uncertain}
            && (e.possiblyDelivered <==> e.state == Uncertain) && e.token.None?
  {
    RunOnward(policy, steps, more);
    Guarantees.RunsAreGood(policy, steps);
    Guarantees.RunsAreGood(policy, steps + more);
    assert RowOk(ViewOf(Run(policy, steps).store.db, id));
    assert RowOk(ViewOf(Run(policy, steps + more).store.db, id));
  }

  /**
   * A failure has at most one report, ever: the one recorded stays, its delivery stays failed and
   * certainly undelivered, and no other message is a report of it.
   */
  lemma OneReport(policy: Queue.Policy, steps: seq<Step>, more: seq<Step>, id: Id, m: Id)
    requires id in Run(policy, steps).store.db.notifications
    requires m in Run(policy, steps + more).store.db.messages
    requires Run(policy, steps + more).store.db.messages[m].key == Report(id)
    ensures var s, s' := Run(policy, steps), Run(policy, steps + more);
            && m == s.store.db.notifications[id]
            && id in s'.store.db.notifications && s'.store.db.notifications[id] == m
            && id in s'.store.db.deliveries && s'.store.db.deliveries[id].state == Failed
            && !s'.store.db.deliveries[id].possiblyDelivered && Unresolved(s', id) == {}
  {
    RunOnward(policy, steps, more);
    assert DbOk(Run(policy, steps + more).store.db) by {
      Guarantees.RunsAreGood(policy, steps + more);
    }
    ReportStays(Run(policy, steps).store.db, Run(policy, steps + more).store.db, id, m);
    Guarantees.UnflaggedMeansUndelivered(policy, steps + more, id);
  }

  lemma ReportStays(db: Db, next: Db, id: Id, m: Id)
    requires Onward(db, next) && DbOk(next) && id in db.notifications
    requires m in next.messages && next.messages[m].key == Report(id)
    ensures m == db.notifications[id] && id in next.notifications && next.notifications[id] == m
    ensures id in next.deliveries && next.deliveries[id].state == Failed && !next.deliveries[id].possiblyDelivered
  {
    assert id in next.notifications;
    assert Reports.ReportOk(next, id) && Reports.GeneratedOk(next, m);
    assert RowOk(ViewOf(next, id));
  }

  lemma ReportedFailure(db: Db, m: Id)
    requires DbOk(db) && m in db.messages && db.messages[m].source == Dsn
    ensures db.messages[m].key.Report?
    ensures var about := db.messages[m].key.delivery;
            && about in db.deliveries && db.deliveries[about].state == Failed && !db.deliveries[about].possiblyDelivered
            && db.deliveries[about].message in db.messages
            && db.messages[db.deliveries[about].message].source == Submission
            && !db.messages[db.deliveries[about].message].key.Report?
  {
    assert Growth.MessageOk(db, m) && Reports.GeneratedOk(db, m);
    var about := db.messages[m].key.delivery;
    assert Reports.ReportOk(db, about);
    assert Growth.MessageOk(db, db.deliveries[about].message);
    assert RowOk(ViewOf(db, about));
  }

  lemma ReportsUnreported(db: Db, m: Id, id: Id)
    requires DbOk(db) && m in db.messages && db.messages[m].source == Dsn
    requires id in db.deliveries && db.deliveries[id].message == m
    ensures id !in db.notifications
  {
    assert forall x :: x in db.notifications ==> Reports.ReportOk(db, x);
  }

  /** Reports are only about submitted mail that certainly failed, never about another report. */
  lemma NoReportAboutReports(policy: Queue.Policy, steps: seq<Step>, m: Id)
    requires m in Run(policy, steps).store.db.messages && Run(policy, steps).store.db.messages[m].source == Dsn
    ensures var db := Run(policy, steps).store.db;
            && db.messages[m].key.Report?
            && var about := db.messages[m].key.delivery;
               && about in db.deliveries && db.deliveries[about].state == Failed
               && db.deliveries[about].message in db.messages
               && db.messages[db.deliveries[about].message].source == Submission
               && !db.messages[db.deliveries[about].message].key.Report?
               && Unresolved(Run(policy, steps), about) == {}
    ensures forall id :: id in Run(policy, steps).store.db.deliveries
                         && Run(policy, steps).store.db.deliveries[id].message == m
                         ==> id !in Run(policy, steps).store.db.notifications
  {
    var s := Run(policy, steps);
    var db := s.store.db;
    assert DbOk(db) by {
      Guarantees.RunsAreGood(policy, steps);
    }
    ReportedFailure(db, m);
    Guarantees.UnflaggedMeansUndelivered(policy, steps, db.messages[m].key.delivery);
    forall id | id in db.deliveries && db.deliveries[id].message == m ensures id !in db.notifications {
      ReportsUnreported(db, m, id);
    }
  }

  // ---------------------------------------------------------------- authority

  /** Epochs only rise; disabling and revoking are final. */
  ghost predicate Waning(db: Db, next: Db) {
    && (forall a :: a in db.accounts ==>
          a in next.accounts && db.accounts[a].epoch <= next.accounts[a].epoch
          && (next.accounts[a].active ==> db.accounts[a].active))
    && (forall c :: c in db.credentials ==>
          c in next.credentials && next.credentials[c].account == db.credentials[c].account
          && next.credentials[c].scope == db.credentials[c].scope
          && (db.credentials[c].revoked ==> next.credentials[c].revoked))
  }

  lemma WaningTransitive(a: Db, b: Db, c: Db)
    requires Waning(a, b) && Waning(b, c)
    ensures Waning(a, c)
  {
  }

  lemma ChangeWanes(db: Db, c: Change)
    requires Changed(db, c).Ok?
    ensures Waning(db, Changed(db, c).value)
  {
  }

  lemma {:induction false} DeliverAllWanes(db: Db, recipients: seq<string>, m: Id, size: nat, ids: seq<Id>, now: int)
    requires |ids| == |recipients| && LocalDelivery.DeliverAll(db, recipients, m, size, ids, now).Ok?
    ensures Waning(db, LocalDelivery.DeliverAll(db, recipients, m, size, ids, now).value)
    decreases |recipients|
  {
    if recipients != [] {
      var one := LocalDelivery.Deliver(db, recipients[0], m, size, ids[0], now).value;
      assert Waning(db, one);
      DeliverAllWanes(one, recipients[1..], m, size, ids[1..], now);
      WaningTransitive(db, one, LocalDelivery.DeliverAll(one, recipients[1..], m, size, ids[1..], now).value);
    }
  }

  ghost predicate SameAuthority(db: Db, next: Db) {
    next.accounts == db.accounts && next.credentials == db.credentials
  }

  /** The queue's own work: accounts, queue settings, mailboxes and blob rows stay as they are. */
  ghost predicate Elsewhere(db: Db, next: Db) {
    SameAuthority(db, next) && next.queued == db.queued && next.entries == db.entries && next.blobs == db.blobs
  }

  lemma {:induction false} RelayRowsAuthority(db: Db, m: Id, recipients: seq<string>, ids: seq<Id>, now: int,
                                              expires: int)
    requires |ids| == |recipients| && Acceptance.RelayRows(db, m, recipients, ids, now, expires).Ok?
    ensures SameAuthority(db, Acceptance.RelayRows(db, m, recipients, ids, now, expires).value)
    decreases |recipients|
  {
    if recipients != [] {
      RelayRowsAuthority(InsertDelivery(db, ids[0], Acceptance.RelayRow(m, recipients[0], now, expires)).value,
                         m, recipients[1..], ids[1..], now, expires);
    }
  }

  lemma InsertRelayAuthority(db: Db, m: Id, recipients: set<string>, meta: QueueMeta, ids: seq<Id>, now: int)
    requires |ids| == |recipients| && Acceptance.InsertRelay(db, m, recipients, meta, ids, now).Ok?
    ensures SameAuthority(db, Acceptance.InsertRelay(db, m, recipients, meta, ids, now).value)
  {
    RelayRowsAuthority(db.(queued := db.queued[m := meta]), m, InOrder(recipients), ids, now,
                       Queue.Later(now, meta.maxAge * 1000).value);
  }

  /** No transaction but an account change touches epochs, account states or credentials. */
  lemma AcceptNewWanes(db: Db, q: Acceptance.Request, p: Acceptance.Prepared, ids: Acceptance.Fresh, now: int)
    requires Acceptance.AcceptNew(db, q, p, ids, now).Ok?
    ensures Waning(db, Acceptance.AcceptNew(db, q, p, ids, now).value)
  {
    Growth.AcceptNewSplits(db, q, p, ids, now);
    var mid := Growth.Delivering(db, q, p, ids, now).value;
    var head := Growth.Headed(db, ids.message, Growth.NewMessage(q, p), Blob(p.size, p.hash)).value;
    var local := Acceptance.LocalKeys(q.plan.recipients);
    DeliverAllWanes(head, InOrder(local), ids.message, p.size, Acceptance.Supply(ids.local, |local|), now);
    if q.Relayed? {
      var remote := Acceptance.RemoteOf(q);
      InsertRelayAuthority(mid, ids.message, remote, Acceptance.MetaOf(q).value,
                           Acceptance.Supply(ids.relay, |remote|), now);
    }
  }

  lemma AcceptWanes(db: Db, q: Acceptance.Request, p: Acceptance.Prepared, ids: Acceptance.Fresh,
                    r: Clock.Reading, fate: Fate)
    ensures Waning(db, Acceptance.Accept(db, q, p, ids, r, fate).0)
  {
    AcceptWrites(db, q, p, ids, r, fate);
    if Acceptance.Accept(db, q, p, ids, r, fate).0 != db {
      AcceptNewWanes(db, q, p, ids, r.wall.value);
    }
  }

  lemma EnqueueNewWanes(db: Db, plan: Acceptance.QueuePlan, p: Acceptance.Prepared, ids: Acceptance.Fresh, now: int)
    requires Acceptance.EnqueueNew(db, plan, p, ids, now).Ok?
    ensures Waning(db, Acceptance.EnqueueNew(db, plan, p, ids, now).value)
  {
    var msg := Message(Operation(plan.operation), p.id, Import, Acceptance.SenderText(plan.sender), None);
    var head := Growth.Headed(db, ids.message, msg, Blob(p.size, p.hash)).value;
    var remote := Acceptance.Texts(plan.recipients);
    InsertRelayAuthority(head, ids.message, remote, QueueMeta(plan.body, plan.maxAge),
                         Acceptance.Supply(ids.relay, |remote|), now);
  }

  lemma EnqueueWanes(db: Db, plan: Acceptance.QueuePlan, p: Acceptance.Prepared, ids: Acceptance.Fresh,
                     r: Clock.Reading, fate: Fate)
    ensures Waning(db, Acceptance.Enqueue(db, plan, p, ids, r, fate).0)
  {
    EnqueueWrites(db, plan, p, ids, r, fate);
    if Acceptance.Enqueue(db, plan, p, ids, r, fate).0 != db {
      EnqueueNewWanes(db, plan, p, ids, r.wall.value);
    }
  }

  lemma HeadedAuthority(db: Db, m: Id, msg: Message, blob: Blob)
    requires Growth.Headed(db, m, msg, blob).Ok?
    ensures SameAuthority(db, Growth.Headed(db, m, msg, blob).value)
  {
  }

  lemma DeliverWanes(db: Db, recipient: string, m: Id, size: nat, id: Id, now: int)
    requires LocalDelivery.Deliver(db, recipient, m, size, id, now).Ok?
    ensures Waning(db, LocalDelivery.Deliver(db, recipient, m, size, id, now).value)
  {
  }

  lemma ReportingWanes(db: Db, plan: Notification.Plan, p: Acceptance.Prepared, delivery: Id, now: int)
    requires Reports.Reporting(db, plan, p, delivery, now).Ok?
    ensures Waning(db, Reports.Reporting(db, plan, p, delivery, now).value)
  {
    var msg, blob := Reports.ReportMessage(plan, p), Blob(p.size, p.hash);
    HeadedAuthority(db, plan.report, msg, blob);
    var head := Growth.Headed(db, plan.report, msg, blob).value;
    if plan.local {
      DeliverWanes(head, Addresses.LocalKey(plan.recipient), plan.report, p.size, delivery, now);
    } else {
      InsertRelayAuthority(head, plan.report, {plan.recipient}, QueueMeta(SevenBit, plan.maxAge), [delivery], now);
    }
  }

  lemma ReportWanes(db: Db, plan: Notification.Plan, p: Acceptance.Prepared, delivery: Id, now: int)
    requires Notification.CommitNew(db, plan, p, delivery, now).Ok?
    ensures Waning(db, Notification.CommitNew(db, plan, p, delivery, now).value)
  {
    Reports.CommitSplits(db, plan, p, delivery, now);
    ReportingWanes(db, plan, p, delivery, now);
  }

  lemma CommitReportWanes(s: Queue.Store, plan: Notification.Plan, p: Acceptance.Prepared, delivery: Id,
                          r: Clock.Reading, fate: Fate)
    ensures Waning(s.db, Notification.CommitReport(s, plan, p, delivery, r, fate).0.db)
  {
    var now := CommitReportWrites(s, plan, p, delivery, r, fate);
    if Notification.CommitReport(s, plan, p, delivery, r, fate).0.db != s.db {
      ReportWanes(s.db, plan, p, delivery, now);
    }
  }

  lemma RecoverBatchElsewhere(s: Queue.Store, limit: nat, now: nat, fate: Fate)
    ensures Elsewhere(s.db, Queue.RecoverBatch(s, limit, now, fate).0.db)
  {
    RecoverBatchWrites(s, limit, now, fate);
  }

  lemma RecoverElsewhere(s: Queue.Store, limit: nat, live: set<nat>, r: Clock.Reading, fate: Fate)
    ensures Elsewhere(s.db, Queue.Recover(s, limit, live, r, fate).0.db)
  {
    if r.wall.Some? {
      RecoverBatchElsewhere(Queue.Pruned(s, live), limit, r.wall.value, fate);
    }
  }

  lemma HoldElsewhere(s: Queue.Store, id: Id, r: Clock.Reading, fate: Fate)
    ensures Elsewhere(s.db, Queue.HoldRow(s, id, r, fate).0.db)
  {
  }

  lemma CloseElsewhere(s: Queue.Store, id: Id, note: string, r: Clock.Reading, fate: Fate)
    ensures Elsewhere(s.db, Queue.CloseUnknown(s, id, note, r, fate).0.db)
  {
  }

  lemma RetryElsewhere(s: Queue.Store, id: Id, dup: bool, extend: bool, r: Clock.Reading, fate: Fate)
    ensures Elsewhere(s.db, Queue.Retry(s, id, dup, extend, r, fate).0.db)
  {
  }

  lemma OfferElsewhere(s: Queue.Store, id: Id, plan: Result<Notification.Plan, StoreError>, again: Clock.Reading)
    requires id in s.db.deliveries && Unreported(s.db.deliveries[id]) && s.db.deliveries[id].message in s.db.messages
    ensures Elsewhere(s.db, Notification.Offer(s, id, plan, again).0.db)
  {
    var d := OfferWrites(s, id, plan, again);
    PutElsewhere(s.db, Notification.Offer(s, id, plan, again).0.db, id, d);
  }

  lemma PutElsewhere(db: Db, next: Db, id: Id, d: Delivery)
    requires StillPut(db, next, id, d)
    ensures Elsewhere(db, next)
  {
  }

  lemma PostponeElsewhere(s: Queue.Store, id: Id, r: Clock.Reading)
    ensures Elsewhere(s.db, Notification.Postpone(s, id, r).0.db)
  {
    var d := PostponeWrites(s, id, r);
    PutElsewhere(s.db, Notification.Postpone(s, id, r).0.db, id, d);
  }

  lemma NextElsewhere(s: Queue.Store, p: Notification.Policy, report: Id, size: Option<nat>, staged: bool,
                      r: Clock.Reading, again: Clock.Reading)
    ensures Elsewhere(s.db, Notification.Next(s, p, report, size, staged, r, again).0.db)
  {
    var t, id, plan := NextIs(s, p, report, size, staged, r, again);
    if Notification.Next(s, p, report, size, staged, r, again).0.db != s.db {
      OfferElsewhere(t, id, plan, again);
    }
  }

  /** Steps that insert messages or change accounts. */
  predicate Inserting(step: Step) { step.Accept? || step.Enqueue? || step.NoticeCommit? || step.ChangeAccounts? }

  lemma StoredElsewhere(s: Sys, step: Step)
    requires !Inserting(step)
    ensures Elsewhere(s.store.db, Stored(s, step).db)
  {
    if RelayRuns.MailStep(step) {
      RelayRuns.StoredMail(s, step);
      if step.NoticeNext? {
        NextElsewhere(s.store, step.policy, step.report, step.size, step.staged, step.r, step.again);
      } else {
        PostponeElsewhere(s.store, step.id, step.r);
      }
    } else {
      RelayRuns.StoredQueue(s, step);
      QueueElsewhere(s, step);
    }
  }

  lemma QueueElsewhere(s: Sys, step: Step)
    requires !Inserting(step) && !RelayRuns.MailStep(step)
    ensures Elsewhere(s.store.db, Stored(s, step).db)
  {
    var t := s.store;
    RelayRuns.StoredQueue(s, step);
    if step.Expire? {
      ExpireElsewhere(t, step.limit, step.r, step.fate);
    } else if step.Recover? {
      RecoverElsewhere(t, step.limit, Live(s), step.r, step.fate);
    } else if step.HoldRow? {
      HoldElsewhere(t, step.id, step.r, step.fate);
    } else if step.Close? {
      CloseElsewhere(t, step.id, step.note, step.r, step.fate);
    } else if step.Retry? {
      RetryElsewhere(t, step.id, step.dup, step.extend, step.r, step.fate);
    }
  }

  lemma InsertingWanes(s: Sys, step: Step)
    requires Inserting(step)
    ensures Waning(s.store.db, Stored(s, step).db)
  {
    var db := s.store.db;
    RelayRuns.StoredMail(s, step);
    if step.Accept? {
      AcceptWanes(db, step.q, step.p, step.ids, step.r, step.fate);
    } else if step.Enqueue? {
      EnqueueWanes(db, step.plan, step.p, step.ids, step.r, step.fate);
    } else if step.NoticeCommit? {
      CommitReportWanes(s.store, step.notice, step.p, step.delivery, step.r, step.fate);
    } else if Stored(s, step).db != db {
      ChangeWanes(db, step.change);
    }
  }

  lemma {:induction false} ScanElsewhere(c: Queue.Claimed, rows: seq<Key>, ctx: Queue.Context)
    requires ctx.policy.Valid() && Queue.Scan(c, rows, ctx).Ok?
    ensures Elsewhere(c.tx, Queue.Scan(c, rows, ctx).value.tx)
    decreases |rows|
  {
    if rows != [] && |c.leases| < ctx.available {
      ScanElsewhere(Queue.Examine(c, rows[0].id, ctx).value, rows[1..], ctx);
    }
  }

  lemma ClaimDueElsewhere(s: Queue.Store, ctx: Queue.Context, fate: Fate)
    requires ctx.policy.Valid()
    ensures Elsewhere(s.db, Queue.ClaimDue(s, ctx, fate).0.db)
  {
    ClaimDueWrites(s, ctx, fate);
    var rows, start := Queue.ReadyBatch(s, ctx.now), Queue.Claimed(s.db, [], 0);
    if Queue.Scan(start, rows, ctx).Ok? {
      ScanElsewhere(start, rows, ctx);
    }
  }

  lemma ThenClaimElsewhere(expired: (Queue.Store, Result<nat, StoreError>), o: Queue.Order, fate: Fate)
    requires o.policy.Valid()
    ensures Elsewhere(expired.0.db, Queue.ThenClaim(expired, o, fate).0.db)
  {
    var t := expired.0;
    ClaimDueElsewhere(t, Queue.ClaimContext(t, o.policy, o.limit, o.live, o.now, o.draws, o.serial), fate);
  }

  lemma ExpireElsewhere(s: Queue.Store, limit: nat, r: Clock.Reading, fate: Fate)
    ensures Elsewhere(s.db, Queue.Expire(s, limit, r, fate).0.db)
  {
    var rows, now := ExpireWrites(s, limit, r, fate);
  }

  lemma ThenExpireElsewhere(recovered: (Queue.Store, Result<nat, StoreError>), o: Queue.Order, w: Queue.Weather)
    requires o.policy.Valid()
    ensures Elsewhere(recovered.0.db, Queue.ThenExpire(recovered, o, w).0.db)
  {
    ExpireElsewhere(recovered.0, Queue.BATCH, w.expiry, w.expiryFate);
    ThenClaimElsewhere(Queue.Expire(recovered.0, Queue.BATCH, w.expiry, w.expiryFate), o, w.fate);
  }

  lemma ClaimElsewhere(s: Queue.Store, policy: Queue.Policy, limit: nat, live: set<nat>, w: Queue.Weather,
                       draws: seq<Queue.Draw>, serial: nat)
    ensures Elsewhere(s.db, Queue.Claim(s, policy, limit, live, w, draws, serial).0.db)
  {
    var ticked := Queue.Ticked(s, w.first);
    if policy.Valid() && ticked.1.Ok? {
      RecoverElsewhere(ticked.0, Queue.BATCH, live, w.recovery, w.recoveryFate);
      ThenExpireElsewhere(Queue.Recover(ticked.0, Queue.BATCH, live, w.recovery, w.recoveryFate),
                          Queue.Order(policy, limit, live, ticked.1.value, draws, serial), w);
    }
  }

  lemma AttemptElsewhere(s: Sys, step: Step)
    requires OfAttempt(step) && step.n in s.attempts
    ensures Elsewhere(s.store.db, Attempted(s, step, step.n).store.db)
  {
    AttemptedStore(s, step);
    if step.Finish? && s.attempts[step.n].stage.Done? {
      var a := s.attempts[step.n];
      var d := FinishWrites(s.store, a.lease, a.stage.result, step.r, step.guarded, step.fate);
    }
  }

  /** Every other step leaves accounts, credentials, queue settings and mailboxes alone. */
  lemma StepElsewhere(policy: Queue.Policy, s: Sys, step: Step)
    requires !Inserting(step)
    ensures Elsewhere(s.store.db, Do(policy, s, step).store.db)
  {
    DoCases(policy, s, step);
    if OfAttempt(step) {
      if step.n in s.attempts {
        AttemptElsewhere(s, step);
      }
    } else if step.Claim? {
      ClaimedElsewhere(policy, s, step.limit, step.weather, step.draws);
    } else if !step.Crash? && !step.DropReader? {
      StoredElsewhere(s, step);
    }
  }

  lemma ClaimedElsewhere(policy: Queue.Policy, s: Sys, limit: nat, w: Queue.Weather, draws: seq<Queue.Draw>)
    ensures Elsewhere(s.store.db, Claimed(policy, s, limit, w, draws).store.db)
  {
    ClaimedIs(policy, s, limit, w, draws);
    ClaimElsewhere(s.store, policy, limit, Live(s), w, draws, s.serial);
  }

  lemma ElsewhereWanes(db: Db, next: Db)
    requires Elsewhere(db, next)
    ensures Waning(db, next)
  {
  }

  lemma StepWanes(policy: Queue.Policy, s: Sys, step: Step)
    ensures Waning(s.store.db, Do(policy, s, step).store.db)
  {
    if Inserting(step) {
      InsertingWanes(s, step);
      DoCases(policy, s, step);
      assert Do(policy, s, step).store == Stored(s, step);
    } else {
      StepElsewhere(policy, s, step);
      ElsewhereWanes(s.store.db, Do(policy, s, step).store.db);
    }
  }

  lemma WanesOnce(policy: Queue.Policy, db: Db, s: Sys, step: Step)
    requires Waning(db, s.store.db)
    ensures Waning(db, Do(policy, s, step).store.db)
  {
    StepWanes(policy, s, step);
    WaningTransitive(db, s.store.db, Do(policy, s, step).store.db);
  }

  lemma {:induction false} WanesFrom(policy: Queue.Policy, s: Sys, more: seq<Step>)
    ensures Waning(s.store.db, RunFrom(policy, s, more).store.db)
  {
    if more != [] {
      var n := |more| - 1;
      WanesFrom(policy, s, more[..n]);
      WanesOnce(policy, s.store.db, RunFrom(policy, s, more[..n]), more[n]);
    }
  }

  lemma RunWanes(policy: Queue.Policy, steps: seq<Step>, more: seq<Step>)
    ensures Waning(Run(policy, steps).store.db, Run(policy, steps + more).store.db)
  {
    WanesFrom(policy, Run(policy, steps), more);
    RunContinues(policy, steps, more);
  }

  /** A principal that was current and no longer is will never be current again. */
  lemma LostAuthorityIsFinal(policy: Queue.Policy, steps: seq<Step>, more: seq<Step>, later: seq<Step>,
                             p: Identity.Principal)
    requires Identity.Current(Run(policy, steps).store.db, p)
    requires !Identity.Current(Run(policy, steps + more).store.db, p)
    ensures !Identity.Current(Run(policy, steps + more + later).store.db, p)
  {
    RunWanes(policy, steps, more);
    RunWanes(policy, steps + more, later);
  }

  /** Revoking, disabling and changing send rights each end every principal of the account. */
  lemma ChangesEndAuthority(db: Db, c: Change, p: Identity.Principal)
    requires Identity.Current(db, p) && Changed(db, c).Ok?
    ensures Identity.Current(Changed(db, c).value, p)
            <==> match c
                 case Revoke(selector) => db.credentials[selector].account != p.account
                 case Disable(login) => login != p.account
                 case SendAs(login, _, _) => login != p.account
                 case _ => true
  {
  }
}
