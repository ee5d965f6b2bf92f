/** Failure reports: at most one per delivery, never about a report (crates/store/src/notification.rs). */
module Reports {
  import opened Wrappers
  import opened Tables
  import opened Addresses
  import opened Growth
  import opened Moves
  import opened Notification
  import Acceptance
  import Ledger
  import LocalDelivery
  import Queue

  /** A recorded report belongs to a failed submission and is the only message about it. */
  ghost predicate ReportOk(db: Db, id: Id)
    requires id in db.notifications
  {
    && id in db.deliveries && db.deliveries[id].message in db.messages
    && db.messages[db.deliveries[id].message].source == Submission
    && db.notifications[id] in db.messages
    && db.messages[db.notifications[id]].key == Report(id)
  }

  /** ... and every generated message is such a report. */
  ghost predicate GeneratedOk(db: Db, m: Id)
    requires m in db.messages
  {
    db.messages[m].key.Report? ==>
      db.messages[m].key.delivery in db.notifications && db.notifications[db.messages[m].key.delivery] == m
  }

  ghost predicate ReportsOk(db: Db) {
    && (forall id :: id in db.notifications ==> ReportOk(db, id))
    && (forall m :: m in db.messages ==> GeneratedOk(db, m))
  }

  /** Changes that keep the mail of every row, the messages and the notification table. */
  lemma ReportsUntouched(db: Db, next: Db)
    requires ReportsOk(db) && next.messages == db.messages && next.notifications == db.notifications
    requires db.deliveries.Keys <= next.deliveries.Keys
    requires forall id :: id in db.deliveries ==> next.deliveries[id].message == db.deliveries[id].message
    ensures ReportsOk(next)
  {
    forall id | id in next.notifications ensures ReportOk(next, id) {
      assert ReportOk(db, id);
    }
    forall m | m in next.messages ensures GeneratedOk(next, m) {
      assert GeneratedOk(db, m);
    }
  }

  lemma GrowthKeepsReports(db: Db, next: Db, m: Id)
    requires ReportsOk(db) && Linked(db) && Grows(db, next, m) && !next.messages[m].key.Report?
    ensures ReportsOk(next)
  {
    forall id | id in next.notifications ensures ReportOk(next, id) {
      assert ReportOk(db, id);
    }
    forall x | x in next.messages ensures GeneratedOk(next, x) {
      if x != m {
        assert GeneratedOk(db, x);
      }
    }
  }

  // ---------------------------------------------------------------- committing a report

  function ReportMessage(plan: Plan, p: Acceptance.Prepared): Message {
    Message(Report(plan.delivery), p.id, Dsn, "", None)
  }

  /** The transaction before it links failure and report. */
  function Reporting(db: Db, plan: Plan, p: Acceptance.Prepared, delivery: Id, now: int): (r: Result<Db, StoreError>) {
    var head :- Headed(db, plan.report, ReportMessage(plan, p), Blob(p.size, p.hash));
    if plan.local then LocalDelivery.Deliver(head, LocalKey(plan.recipient), plan.report, p.size, delivery, now)
    else Acceptance.InsertRelay(head, plan.report, {plan.recipient}, QueueMeta(SevenBit, plan.maxAge), [delivery], now)
  }

  function Linking(db: Db, plan: Plan): Db
    requires plan.delivery in db.deliveries
  {
    Queue.Put(db.(notifications := db.notifications[plan.delivery := plan.report]),
              plan.delivery, db.deliveries[plan.delivery].(notice := Created))
  }

  lemma CommitSplits(db: Db, plan: Plan, p: Acceptance.Prepared, delivery: Id, now: int)
    requires CommitNew(db, plan, p, delivery, now).Ok?
    ensures Reporting(db, plan, p, delivery, now).Ok?
    ensures var mid := Reporting(db, plan, p, delivery, now).value;
            && plan.delivery !in mid.notifications && plan.delivery in mid.deliveries
            && CommitNew(db, plan, p, delivery, now).value == Linking(mid, plan)
  {
  }

  lemma DeliverAdds(db: Db, recipient: string, m: Id, size: nat, id: Id, now: int)
    requires LocalDelivery.Deliver(db, recipient, m, size, id, now).Ok?
    ensures var next := LocalDelivery.Deliver(db, recipient, m, size, id, now).value;
            && Adds(db, next, m)
            && forall x :: x in next.deliveries && x !in db.deliveries ==> next.deliveries[x].route == Local
  {
  }

  /** The head of a report, with all it keeps. */
  lemma ReportHead(db: Db, plan: Plan, p: Acceptance.Prepared) returns (head: Db)
    requires Linked(db) && Ledger.LedgerOk(db)
             && Headed(db, plan.report, ReportMessage(plan, p), Blob(p.size, p.hash)).Ok?
    ensures Headed(db, plan.report, ReportMessage(plan, p), Blob(p.size, p.hash)) == Ok(head)
    ensures Grows(db, head, plan.report) && plan.report !in db.queued && head.queued == db.queued
    ensures head.messages[plan.report] == ReportMessage(plan, p) && Ledger.LedgerOk(head)
    ensures Ledger.SizeOf(head, plan.report) == p.size
  {
    var msg, blob := ReportMessage(plan, p), Blob(p.size, p.hash);
    HeadedGrows(db, plan.report, msg, blob);
    Ledger.HeadedKeepsLedger(db, plan.report, msg, blob);
    head := Headed(db, plan.report, msg, blob).value;
  }

  lemma LocalReportGrows(db: Db, head: Db, plan: Plan, p: Acceptance.Prepared, delivery: Id, now: int)
    requires Grows(db, head, plan.report) && Ledger.LedgerOk(head) && Ledger.SizeOf(head, plan.report) == p.size
    requires LocalDelivery.Deliver(head, LocalKey(plan.recipient), plan.report, p.size, delivery, now).Ok?
    ensures var mid := LocalDelivery.Deliver(head, LocalKey(plan.recipient), plan.report, p.size, delivery, now).value;
            Grows(db, mid, plan.report) && mid.messages == head.messages && Ledger.LedgerOk(mid)
  {
    var mid := LocalDelivery.Deliver(head, LocalKey(plan.recipient), plan.report, p.size, delivery, now).value;
    DeliverAdds(head, LocalKey(plan.recipient), plan.report, p.size, delivery, now);
    AddingGrows(db, head, mid, plan.report);
    Ledger.DeliverKeepsLedger(head, LocalKey(plan.recipient), plan.report, p.size, delivery, now);
  }

  lemma RemoteReportGrows(db: Db, head: Db, plan: Plan, delivery: Id, now: int)
    requires Grows(db, head, plan.report) && Ledger.LedgerOk(head) && plan.report !in db.queued
             && head.queued == db.queued
    requires Acceptance.InsertRelay(head, plan.report, {plan.recipient}, QueueMeta(SevenBit, plan.maxAge), [delivery],
                                    now).Ok?
    ensures var mid := Acceptance.InsertRelay(head, plan.report, {plan.recipient}, QueueMeta(SevenBit, plan.maxAge),
                                              [delivery], now).value;
            Grows(db, mid, plan.report) && mid.messages == head.messages && Ledger.LedgerOk(mid)
  {
    var meta := QueueMeta(SevenBit, plan.maxAge);
    RelayingGrows(db, head, plan.report, {plan.recipient}, meta, [delivery], now);
    Ledger.RelayingKeepsLedger(head, plan.report, {plan.recipient}, meta, [delivery], now);
  }

  lemma ReportMessageOk(db: Db, mid: Db, plan: Plan, p: Acceptance.Prepared)
    requires Grows(db, mid, plan.report) && mid.messages[plan.report] == ReportMessage(plan, p)
    ensures MessageOk(mid, plan.report)
  {
  }

  lemma ReportingGrows(db: Db, plan: Plan, p: Acceptance.Prepared, delivery: Id, now: int)
    requires Linked(db) && Ledger.LedgerOk(db) && Reporting(db, plan, p, delivery, now).Ok?
    ensures var mid := Reporting(db, plan, p, delivery, now).value;
            && Grows(db, mid, plan.report) && mid.messages[plan.report] == ReportMessage(plan, p)
            && MessageOk(mid, plan.report) && Ledger.LedgerOk(mid)
  {
    var head := ReportHead(db, plan, p);
    if plan.local {
      LocalReportGrows(db, head, plan, p, delivery, now);
    } else {
      RemoteReportGrows(db, head, plan, delivery, now);
    }
    ReportMessageOk(db, Reporting(db, plan, p, delivery, now).value, plan, p);
  }

  lemma GrowthKeepsView(db: Db, mid: Db, m: Id, id: Id)
    requires Linked(db) && Grows(db, mid, m) && id in db.deliveries
    ensures id in mid.deliveries && ViewOf(mid, id) == ViewOf(db, id)
  {
    assert DeliveryOk(db, db.deliveries[id]);
  }

  lemma OwnView(mid: Db, plan: Plan)
    requires plan.delivery in mid.deliveries
    ensures var v := ViewOf(mid, plan.delivery);
            ViewOf(Linking(mid, plan), plan.delivery)
            == v.(d := v.d.(notice := Created), report := Some(plan.report))
  {
  }

  lemma CreatedIsStill(v: View, report: Id)
    requires v.d.state == State.Failed && v.d.route == Relay && v.d.notice == NotYet
    ensures Still(v, v.(d := v.d.(notice := Created), report := Some(report)))
  {
  }

  /** Before and after linking, only the reported row's notice differs. */
  lemma LinkedView(v: View, mid: Db, plan: Plan, id: Id)
    requires plan.delivery in mid.deliveries && id in mid.deliveries && ViewOf(mid, id) == v
    requires id == plan.delivery ==> v.d.state == State.Failed && v.d.route == Relay && v.d.notice == NotYet
    ensures id in Linking(mid, plan).deliveries && Still(v, ViewOf(Linking(mid, plan), id))
  {
    if id != plan.delivery {
      OtherView(mid, plan, id);
      SameViewStill(v);
    } else {
      OwnView(mid, plan);
      CreatedIsStill(v, plan.report);
    }
  }

  lemma OtherView(mid: Db, plan: Plan, id: Id)
    requires plan.delivery in mid.deliveries && id in mid.deliveries && id != plan.delivery
    ensures ViewOf(Linking(mid, plan), id) == ViewOf(mid, id)
  {
  }

  lemma LinkedNewborn(db: Db, mid: Db, plan: Plan, id: Id)
    requires Attached(db) && Grows(db, mid, plan.report) && plan.delivery in db.deliveries
             && plan.delivery in mid.deliveries
    requires id in Linking(mid, plan).deliveries && id !in db.deliveries
    ensures Newborn(ViewOf(Linking(mid, plan), id))
  {
    OtherView(mid, plan, id);
    assert BornFor(mid.deliveries[id], plan.report);
  }

  lemma LinkingEvolves(db: Db, mid: Db, plan: Plan, owned: set<Id>)
    requires RowsOk(db) && Linked(db) && Grows(db, mid, plan.report) && Eligible(db, plan)
    requires plan.delivery !in db.notifications
    requires plan.delivery in mid.deliveries
    ensures Evolves(db, Linking(mid, plan), owned) && Attached(Linking(mid, plan))
  {
    var next := Linking(mid, plan);
    assert RowOk(ViewOf(db, plan.delivery));
    forall id | id in db.deliveries ensures Still(ViewOf(db, id), ViewOf(next, id)) {
      GrowthKeepsView(db, mid, plan.report, id);
      LinkedView(ViewOf(db, id), mid, plan, id);
    }
    forall id | id in next.deliveries && id !in db.deliveries ensures Newborn(ViewOf(next, id)) {
      LinkedNewborn(db, mid, plan, id);
    }
  }

  lemma LinkedReport(db: Db, mid: Db, plan: Plan, p: Acceptance.Prepared, id: Id)
    requires Grows(db, mid, plan.report) && Eligible(db, plan) && mid.messages[plan.report] == ReportMessage(plan, p)
    requires id == plan.delivery || (id in db.notifications && ReportOk(db, id))
    ensures id in Linking(mid, plan).notifications && ReportOk(Linking(mid, plan), id)
  {
  }

  lemma LinkedGenerated(db: Db, mid: Db, plan: Plan, p: Acceptance.Prepared, m: Id)
    requires Grows(db, mid, plan.report) && Eligible(db, plan) && mid.messages[plan.report] == ReportMessage(plan, p)
    requires m == plan.report || (m in db.messages && GeneratedOk(db, m) && MessageOk(db, m))
    ensures m in Linking(mid, plan).messages && GeneratedOk(Linking(mid, plan), m)
  {
    assert mid.messages[plan.report].key !in db.keys;
  }

  lemma LinkingKeepsReports(db: Db, mid: Db, plan: Plan, p: Acceptance.Prepared)
    requires ReportsOk(db) && Linked(db) && Grows(db, mid, plan.report) && Eligible(db, plan)
    requires mid.messages[plan.report] == ReportMessage(plan, p) && plan.delivery !in db.notifications
    ensures ReportsOk(Linking(mid, plan))
  {
    var next := Linking(mid, plan);
    forall id | id in next.notifications ensures ReportOk(next, id) {
      LinkedReport(db, mid, plan, p, id);
    }
    forall m | m in next.messages ensures GeneratedOk(next, m) {
      LinkedGenerated(db, mid, plan, p, m);
    }
  }

  /** Putting back a row with the same mail keeps the references. */
  lemma SameMailKeepsLinks(db: Db, next: Db)
    requires Linked(db) && next.messages == db.messages && next.keys == db.keys && next.blobs == db.blobs
    requires next.queued == db.queued && next.deliveries.Keys == db.deliveries.Keys
    requires forall id :: id in db.deliveries ==> SameMail(db.deliveries[id], next.deliveries[id])
    ensures Linked(next)
  {
    forall m | m in next.messages ensures MessageOk(next, m) {
      assert MessageOk(db, m);
    }
    forall id | id in next.deliveries ensures DeliveryOk(next, next.deliveries[id]) {
      assert DeliveryOk(db, db.deliveries[id]);
    }
  }

  lemma LinkingKeepsRest(mid: Db, plan: Plan)
    requires Linked(mid) && Ledger.LedgerOk(mid) && plan.delivery in mid.deliveries
    ensures Linked(Linking(mid, plan)) && Ledger.LedgerOk(Linking(mid, plan))
  {
    SameMailKeepsLinks(mid, Linking(mid, plan));
    Ledger.LedgerUntouched(mid, Linking(mid, plan));
  }

  /** The committed transaction, against every invariant at once. */
  lemma CommitNewKeeps(db: Db, plan: Plan, p: Acceptance.Prepared, delivery: Id, now: int, owned: set<Id>)
    requires RowsOk(db) && Linked(db) && ReportsOk(db) && Ledger.LedgerOk(db)
    requires Eligible(db, plan) && plan.delivery !in db.notifications && CommitNew(db, plan, p, delivery, now).Ok?
    ensures var next := CommitNew(db, plan, p, delivery, now).value;
            && Evolves(db, next, owned) && Attached(next)
            && Linked(next) && ReportsOk(next) && Ledger.LedgerOk(next)
  {
    CommitSplits(db, plan, p, delivery, now);
    var mid := Reporting(db, plan, p, delivery, now).value;
    assert Grows(db, mid, plan.report) && mid.messages[plan.report] == ReportMessage(plan, p)
           && Linked(mid) && Ledger.LedgerOk(mid) by {
      ReportingGrows(db, plan, p, delivery, now);
      GrowthKeepsLinks(db, mid, plan.report);
    }
    LinkingEvolves(db, mid, plan, owned);
    LinkingKeepsReports(db, mid, plan, p);
    LinkingKeepsRest(mid, plan);
  }
}
