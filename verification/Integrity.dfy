/** The counter queries of Store::check_integrity find nothing in any run. */
module Integrity {
  import opened Tables
  import opened Ordering
  import opened Moves
  import opened Growth
  import opened Transactions
  import opened RelaySystem
  import Acceptance
  import Addresses
  import Clock
  import Guarantees
  import Ledger
  import LocalDelivery
  import Notification
  import Permanence
  import Queue
  import Replay
  import Reports

  // ---------------------------------------------------------------- the queries

  /** First and third part of queue_integrity_mismatches: damaged delivery rows. */
  function QueueMismatches(db: Db): set<Id> {
    set id | id in db.deliveries &&
      var d := db.deliveries[id];
      || (d.route == Relay && (d.message !in db.queued || ((d.state == Leased) != (id in db.leases))
                               || ((d.state == Leased) != d.token.Some?)))
      || (d.route != Relay && id in db.leases)
      || ((d.notice == Created) != (id in db.notifications))
      || (d.closedAt.Some? && (d.state != Uncertain || !d.possiblyDelivered))
      || (d.state == Failed && d.possiblyDelivered)
  }

  /** Its second part: queued messages without a relay delivery. */
  function QueuedMismatches(db: Db): set<Id> {
    set m | m in db.queued && RecipientsOf(db, m, Relay) == {}
  }

  function QuotaMismatches(db: Db): set<string> {
    set login | login in db.accounts && db.accounts[login].used != Ledger.Filed(db, db.entries, login)
  }

  /** Accounts whose next UID is not above every UID in use, or whose event counter is behind its events. */
  function UidMismatches(db: Db): set<string> {
    set login | login in db.accounts
                && exists i :: 0 <= i < |db.entries| && db.entries[i].account == login
                               && (|| db.entries[i].uid >= db.accounts[login].uidNext
                                   || db.entries[i].event > db.accounts[login].eventSeq)
  }

  predicate Misfiled(db: Db, e: Entry) {
    && e.delivery in db.deliveries
    && var d := db.deliveries[e.delivery]; d.message != e.message || d.route != Local || d.state != Delivered
  }

  // ---------------------------------------------------------------- what they need besides DbOk

  predicate FiledRight(db: Db, e: Entry) { e.delivery in db.deliveries && !Misfiled(db, e) }

  ghost predicate Filing(db: Db) { forall i :: 0 <= i < |db.entries| ==> FiledRight(db, db.entries[i]) }

  ghost predicate Queueing(db: Db) { forall m :: m in db.queued ==> RecipientsOf(db, m, Relay) != {} }

  ghost predicate Complete(db: Db) { Filing(db) && Queueing(db) }

  lemma OnwardFiles(db: Db, next: Db, e: Entry)
    requires Onward(db, next) && FiledRight(db, e)
    ensures FiledRight(next, e)
  {
    assert RowOnward(db.deliveries[e.delivery], next.deliveries[e.delivery]);
  }

  /** Old entries and old queue rows stay in order as time goes on. */
  lemma OnwardKeepsFiling(db: Db, next: Db)
    requires Onward(db, next) && Filing(db) && next.entries == db.entries
    ensures Filing(next)
  {
    forall i | 0 <= i < |next.entries| ensures FiledRight(next, next.entries[i]) {
      OnwardFiles(db, next, db.entries[i]);
    }
  }

  lemma OnwardKeepsQueueing(db: Db, next: Db)
    requires Linked(db) && Onward(db, next) && Queueing(db)
    requires forall m :: m in next.queued && m !in db.queued ==> RecipientsOf(next, m, Relay) != {}
    ensures Queueing(next)
  {
    forall m | m in next.queued && m in db.queued ensures RecipientsOf(next, m, Relay) != {} {
      Replay.RecipientsStable(db, next, m, Relay);
    }
  }

  // ---------------------------------------------------------------- inserting

  lemma DeliverFiles(db: Db, recipient: string, m: Id, size: nat, id: Id, now: int)
    requires Filing(db) && LocalDelivery.Deliver(db, recipient, m, size, id, now).Ok?
    ensures Filing(LocalDelivery.Deliver(db, recipient, m, size, id, now).value)
  {
    var next := LocalDelivery.Deliver(db, recipient, m, size, id, now).value;
    forall i | 0 <= i < |next.entries| ensures FiledRight(next, next.entries[i]) {
      if i < |db.entries| {
        assert FiledRight(db, db.entries[i]);
      }
    }
  }

  lemma {:induction false} DeliverAllFiles(db: Db, recipients: seq<string>, m: Id, size: nat, ids: seq<Id>, now: int)
    requires Filing(db) && |ids| == |recipients| && LocalDelivery.DeliverAll(db, recipients, m, size, ids, now).Ok?
    ensures Filing(LocalDelivery.DeliverAll(db, recipients, m, size, ids, now).value)
    decreases |recipients|
  {
    if recipients != [] {
      DeliverFiles(db, recipients[0], m, size, ids[0], now);
      DeliverAllFiles(LocalDelivery.Deliver(db, recipients[0], m, size, ids[0], now).value, recipients[1..], m, size,
                      ids[1..], now);
    }
  }

  /** Rows are added, entries are not. */
  lemma AddingFiles(db: Db, next: Db, m: Id)
    requires Filing(db) && Adds(db.(queued := next.queued), next, m) && next.entries == db.entries
    ensures Filing(next)
  {
    forall i | 0 <= i < |next.entries| ensures FiledRight(next, next.entries[i]) {
      assert FiledRight(db, db.entries[i]);
    }
  }

  lemma HeadedFiles(db: Db, m: Id, msg: Message, blob: Blob)
    requires Filing(db) && Headed(db, m, msg, blob).Ok?
    ensures Filing(Headed(db, m, msg, blob).value)
  {
    var next := Headed(db, m, msg, blob).value;
    forall i | 0 <= i < |next.entries| ensures FiledRight(next, next.entries[i]) {
      assert FiledRight(db, db.entries[i]);
    }
  }

  lemma InsertRelayFiles(db: Db, m: Id, recipients: set<string>, meta: QueueMeta, ids: seq<Id>, now: int)
    requires Filing(db) && |ids| == |recipients| && Acceptance.InsertRelay(db, m, recipients, meta, ids, now).Ok?
    requires forall t :: t in recipients ==> Addresses.IsAddress(t)
    ensures Filing(Acceptance.InsertRelay(db, m, recipients, meta, ids, now).value)
  {
    InsertRelayAdds(db, m, recipients, meta, ids, now);
    var next := Acceptance.InsertRelay(db, m, recipients, meta, ids, now).value;
    assert next.queued == db.queued[m := meta];
    AddingFiles(db, next, m);
  }

  lemma AcceptFiles(db: Db, q: Acceptance.Request, p: Acceptance.Prepared, ids: Acceptance.Fresh, now: int)
    requires Filing(db) && Acceptance.AcceptNew(db, q, p, ids, now).Ok?
    ensures Filing(Acceptance.AcceptNew(db, q, p, ids, now).value)
  {
    AcceptNewSplits(db, q, p, ids, now);
    var msg, blob := NewMessage(q, p), Blob(p.size, p.hash);
    HeadedFiles(db, ids.message, msg, blob);
    var local := Acceptance.LocalKeys(q.plan.recipients);
    DeliverAllFiles(Headed(db, ids.message, msg, blob).value, InOrder(local), ids.message, p.size,
                    Acceptance.Supply(ids.local, |local|), now);
    if q.Relayed? {
      var remote := Acceptance.RemoteOf(q);
      InsertRelayFiles(Delivering(db, q, p, ids, now).value, ids.message, remote, Acceptance.MetaOf(q).value,
                       Acceptance.Supply(ids.relay, |remote|), now);
    }
  }

  lemma GrowthQueues(db: Db, next: Db, m: Id)
    requires DbOk(db) && Queueing(db) && Grows(db, next, m) && (m in next.queued ==> RecipientsOf(next, m, Relay) != {})
    ensures Queueing(next)
  {
    GrowthOnward(db, next, m);
    OnwardKeepsQueueing(db, next);
  }

  lemma SomeText(recipients: seq<Addresses.Address>)
    requires recipients != []
    ensures Acceptance.Texts(recipients) != {}
  {
    assert recipients[0] in Acceptance.Texts(recipients);
  }

  lemma AcceptNewCompletes(db: Db, q: Acceptance.Request, p: Acceptance.Prepared, ids: Acceptance.Fresh, now: int)
    requires DbOk(db) && Complete(db) && Acceptance.AcceptNew(db, q, p, ids, now).Ok?
    requires q.Relayed? ==> q.relay.recipients != []
    ensures Complete(Acceptance.AcceptNew(db, q, p, ids, now).value)
  {
    var next := Acceptance.AcceptNew(db, q, p, ids, now).value;
    AcceptFiles(db, q, p, ids, now);
    AcceptNewGrows(db, q, p, ids, now);
    QueuedAsAsked(next, ids.message, q, p);
    GrowthQueues(db, next, ids.message);
  }

  lemma QueuedAsAsked(next: Db, m: Id, q: Acceptance.Request, p: Acceptance.Prepared)
    requires m in next.messages && next.messages[m].blob in next.blobs
             && Acceptance.Stored(next, m) == Acceptance.Asked(q, p)
    requires q.Relayed? ==> q.relay.recipients != []
    ensures m in next.queued ==> RecipientsOf(next, m, Relay) != {}
  {
    if q.Relayed? {
      SomeText(q.relay.recipients);
    }
  }

  lemma AcceptValid(db: Db, q: Acceptance.Request, p: Acceptance.Prepared, ids: Acceptance.Fresh, r: Clock.Reading,
                    fate: Fate)
    requires Acceptance.Accept(db, q, p, ids, r, fate).0 != db
    ensures q.Relayed? ==> q.relay.recipients != []
  {
  }

  lemma AcceptCompletes(db: Db, q: Acceptance.Request, p: Acceptance.Prepared, ids: Acceptance.Fresh,
                        r: Clock.Reading, fate: Fate)
    requires DbOk(db) && Complete(db)
    ensures Complete(Acceptance.Accept(db, q, p, ids, r, fate).0)
  {
    AcceptWrites(db, q, p, ids, r, fate);
    if Acceptance.Accept(db, q, p, ids, r, fate).0 != db {
      AcceptValid(db, q, p, ids, r, fate);
      AcceptNewCompletes(db, q, p, ids, r.wall.value);
    }
  }

  lemma EnqueueNewCompletes(db: Db, plan: Acceptance.QueuePlan, p: Acceptance.Prepared, ids: Acceptance.Fresh, now: int)
    requires DbOk(db) && Complete(db) && plan.recipients != [] && Acceptance.EnqueueNew(db, plan, p, ids, now).Ok?
    ensures Complete(Acceptance.EnqueueNew(db, plan, p, ids, now).value)
  {
    var next := Acceptance.EnqueueNew(db, plan, p, ids, now).value;
    EnqueueNewGrows(db, plan, p, ids, now);
    GrowthOnward(db, next, ids.message);
    OnwardKeepsFiling(db, next);
    SomeText(plan.recipients);
    assert RecipientsOf(next, ids.message, Relay) == Acceptance.Stored(next, ids.message).remote;
    GrowthQueues(db, next, ids.message);
  }

  lemma EnqueueValid(db: Db, plan: Acceptance.QueuePlan, p: Acceptance.Prepared, ids: Acceptance.Fresh,
                     r: Clock.Reading, fate: Fate)
    requires Acceptance.Enqueue(db, plan, p, ids, r, fate).0 != db
    ensures plan.recipients != []
  {
  }

  lemma EnqueueCompletes(db: Db, plan: Acceptance.QueuePlan, p: Acceptance.Prepared, ids: Acceptance.Fresh,
                         r: Clock.Reading, fate: Fate)
    requires DbOk(db) && Complete(db)
    ensures Complete(Acceptance.Enqueue(db, plan, p, ids, r, fate).0)
  {
    EnqueueWrites(db, plan, p, ids, r, fate);
    if Acceptance.Enqueue(db, plan, p, ids, r, fate).0 != db {
      EnqueueValid(db, plan, p, ids, r, fate);
      EnqueueNewCompletes(db, plan, p, ids, r.wall.value);
    }
  }

  lemma ReportCompletes(db: Db, plan: Notification.Plan, p: Acceptance.Prepared, delivery: Id, now: int)
    requires DbOk(db) && Complete(db) && Notification.CommitNew(db, plan, p, delivery, now).Ok?
    ensures Complete(Notification.CommitNew(db, plan, p, delivery, now).value)
  {
    Reports.CommitSplits(db, plan, p, delivery, now);
    Reports.ReportingGrows(db, plan, p, delivery, now);
    var mid := Reports.Reporting(db, plan, p, delivery, now).value;
    ReportingFiles(db, plan, p, delivery, now);
    ReportingQueues(db, plan, p, delivery, now);
    GrowthQueues(db, mid, plan.report);
    LinkingCompletes(mid, plan);
  }

  lemma ReportingFiles(db: Db, plan: Notification.Plan, p: Acceptance.Prepared, delivery: Id, now: int)
    requires Filing(db) && Reports.Reporting(db, plan, p, delivery, now).Ok?
    ensures Filing(Reports.Reporting(db, plan, p, delivery, now).value)
  {
    var msg, blob := Reports.ReportMessage(plan, p), Blob(p.size, p.hash);
    HeadedFiles(db, plan.report, msg, blob);
    var head := Headed(db, plan.report, msg, blob).value;
    if plan.local {
      DeliverFiles(head, Addresses.LocalKey(plan.recipient), plan.report, p.size, delivery, now);
    } else {
      InsertRelayFiles(head, plan.report, {plan.recipient}, QueueMeta(SevenBit, plan.maxAge), [delivery], now);
    }
  }

  lemma ReportingQueues(db: Db, plan: Notification.Plan, p: Acceptance.Prepared, delivery: Id, now: int)
    requires Linked(db) && Reports.Reporting(db, plan, p, delivery, now).Ok?
    ensures var mid := Reports.Reporting(db, plan, p, delivery, now).value;
            plan.report in mid.queued ==> RecipientsOf(mid, plan.report, Relay) != {}
  {
    var msg, blob := Reports.ReportMessage(plan, p), Blob(p.size, p.hash);
    HeadedGrows(db, plan.report, msg, blob);
    var head := Headed(db, plan.report, msg, blob).value;
    if !plan.local {
      InsertRelayAdds(head, plan.report, {plan.recipient}, QueueMeta(SevenBit, plan.maxAge), [delivery], now);
      var mid := Reports.Reporting(db, plan, p, delivery, now).value;
      assert plan.recipient in RecipientsOf(mid, plan.report, Relay);
    }
  }

  lemma LinkingCompletes(mid: Db, plan: Notification.Plan)
    requires Complete(mid) && plan.delivery in mid.deliveries
    ensures Complete(Reports.Linking(mid, plan))
  {
    var next := Reports.Linking(mid, plan);
    forall i | 0 <= i < |next.entries| ensures FiledRight(next, next.entries[i]) {
      assert FiledRight(mid, mid.entries[i]);
    }
    forall m | m in next.queued ensures RecipientsOf(next, m, Relay) != {} {
      var t :| t in RecipientsOf(mid, m, Relay);
      var id :| id in mid.deliveries && mid.deliveries[id].message == m && mid.deliveries[id].route == Relay
                && mid.deliveries[id].recipient == t;
      assert id in next.deliveries && next.deliveries[id].recipient == t;
      assert t in RecipientsOf(next, m, Relay);
    }
  }

  lemma CommitReportCompletes(s: Queue.Store, plan: Notification.Plan, p: Acceptance.Prepared, delivery: Id,
                              r: Clock.Reading, fate: Fate)
    requires DbOk(s.db) && Complete(s.db)
    ensures Complete(Notification.CommitReport(s, plan, p, delivery, r, fate).0.db)
  {
    var now := Queue.Ticked(s, r).1;
    if now.Ok? && Notification.CommitNew(s.db, plan, p, delivery, now.value).Ok? {
      ReportCompletes(s.db, plan, p, delivery, now.value);
    }
  }

  // ---------------------------------------------------------------- every run

  lemma ChangeElsewhere(db: Db, c: Change)
    requires Changed(db, c).Ok?
    ensures Changed(db, c).value.queued == db.queued && Changed(db, c).value.entries == db.entries
    ensures Changed(db, c).value.blobs == db.blobs
  {
  }

  lemma StillComplete(db: Db, next: Db)
    requires Linked(db) && Complete(db) && Onward(db, next) && next.queued == db.queued && next.entries == db.entries
    ensures Complete(next)
  {
    OnwardKeepsFiling(db, next);
    OnwardKeepsQueueing(db, next);
  }

  lemma InsertingCompletes(s: Sys, step: Step)
    requires DbOk(s.store.db) && Complete(s.store.db) && (step.Accept? || step.Enqueue? || step.NoticeCommit?)
    ensures Complete(Stored(s, step).db)
  {
    var db := s.store.db;
    match step {
      case Accept(q, p, ids, r, fate) => AcceptCompletes(db, q, p, ids, r, fate);
      case Enqueue(plan, p, ids, r, fate) => EnqueueCompletes(db, plan, p, ids, r, fate);
      case NoticeCommit(notice, p, delivery, r, fate) => CommitReportCompletes(s.store, notice, p, delivery, r, fate);
    }
  }

  /** All other steps keep the queue settings, the mailboxes and the blob rows. */
  lemma StepFiles(policy: Queue.Policy, s: Sys, step: Step)
    requires !step.Accept? && !step.Enqueue? && !step.NoticeCommit?
    ensures var next := Do(policy, s, step).store.db;
            next.queued == s.store.db.queued && next.entries == s.store.db.entries && next.blobs == s.store.db.blobs
  {
    if step.ChangeAccounts? {
      if Changed(s.store.db, step.change).Ok? {
        ChangeElsewhere(s.store.db, step.change);
      }
    } else {
      Permanence.StepElsewhere(policy, s, step);
    }
  }

  lemma StepCompletes(policy: Queue.Policy, s: Sys, step: Step)
    requires Good(s) && Complete(s.store.db)
    ensures Complete(Do(policy, s, step).store.db)
  {
    if step.Accept? || step.Enqueue? || step.NoticeCommit? {
      InsertingCompletes(s, step);
      assert Do(policy, s, step).store == Stored(s, step);
    } else {
      StepFiles(policy, s, step);
      Permanence.StepOnward(policy, s, step);
      StillComplete(s.store.db, Do(policy, s, step).store.db);
    }
  }

  lemma {:induction false} RunsAreComplete(policy: Queue.Policy, steps: seq<Step>)
    ensures Complete(Run(policy, steps).store.db)
  {
    if steps != [] {
      RunsAreComplete(policy, steps[..|steps| - 1]);
      Guarantees.RunsAreGood(policy, steps[..|steps| - 1]);
      StepCompletes(policy, Run(policy, steps[..|steps| - 1]), steps[|steps| - 1]);
    }
  }

  lemma RowsClean(db: Db)
    requires DbOk(db)
    ensures QueueMismatches(db) == {}
  {
    forall id | id in db.deliveries ensures id !in QueueMismatches(db) {
      assert RowOk(ViewOf(db, id)) && DeliveryOk(db, db.deliveries[id]);
    }
  }

  lemma LedgerClean(db: Db)
    requires Ledger.LedgerOk(db)
    ensures QuotaMismatches(db) == {} && UidMismatches(db) == {}
    ensures forall login :: login in db.accounts ==> db.accounts[login].used <= db.accounts[login].quota
    ensures forall i, j :: 0 <= i < j < |db.entries| && db.entries[i].account == db.entries[j].account
                           ==> db.entries[i].uid != db.entries[j].uid && db.entries[i].event != db.entries[j].event
  {
    assert forall login :: login in db.accounts ==> Ledger.AccountOk(db, login);
    assert forall i :: 0 <= i < |db.entries| ==> Ledger.EntryOk(db, db.entries[i]);
  }

  /** All that the check's queries look for is absent. */
  ghost predicate Clean(db: Db) {
    && QueueMismatches(db) == {} && QueuedMismatches(db) == {}
    && QuotaMismatches(db) == {} && UidMismatches(db) == {}
    && (forall i :: 0 <= i < |db.entries| ==> !Misfiled(db, db.entries[i]))
  }

  lemma SoundIsClean(db: Db)
    requires DbOk(db) && Complete(db)
    ensures Clean(db)
  {
    RowsClean(db);
    LedgerClean(db);
    assert forall i :: 0 <= i < |db.entries| ==> FiledRight(db, db.entries[i]);
  }

  /**
   * In every reachable state all counters of the integrity check are zero, quotas hold, UIDs and event numbers
   * are unique.
   */
  lemma IntegrityCheckIsClean(policy: Queue.Policy, steps: seq<Step>)
    ensures var db := Run(policy, steps).store.db;
            && Clean(db)
            && (forall login :: login in db.accounts ==> db.accounts[login].used <= db.accounts[login].quota)
            && (forall i, j :: 0 <= i < j < |db.entries| && db.entries[i].account == db.entries[j].account
                               ==> db.entries[i].uid != db.entries[j].uid && db.entries[i].event != db.entries[j].event)
  {
    var db := Run(policy, steps).store.db;
    assert DbOk(db) by {
      Guarantees.RunsAreGood(policy, steps);
    }
    RunsAreComplete(policy, steps);
    SoundIsClean(db);
    LedgerClean(db);
  }
}
