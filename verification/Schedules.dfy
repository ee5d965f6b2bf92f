/** When accepted mail is due and when it expires (insert_relay in crates/store/src/queue.rs). */
module Schedules {
  import opened Wrappers
  import opened Tables
  import opened Ordering
  import Acceptance
  import Addresses
  import Backlog
  import Clock
  import Fairness
  import Growth
  import Notification
  import Queue
  import Reports
  import Transactions

  /** A relay row as it is born at `now`: never tried, due at once, and to live for the age queued with its message. */
  predicate Scheduled(db: Db, d: Delivery, now: int) {
    && d.state == Pending && d.attempts == 0 && d.nextAttempt == now
    && d.message in db.queued && d.expires == now + 1000 * db.queued[d.message].maxAge
  }

  /** Every relay row that was added is scheduled from `now` on. */
  ghost predicate AllScheduled(db: Db, next: Db, now: int) {
    forall id :: id in next.deliveries && id !in db.deliveries && next.deliveries[id].route == Relay ==>
      Scheduled(next, next.deliveries[id], now)
  }

  // ---------------------------------------------------------------- the inserting transactions

  lemma {:induction false} RelayRowsBorn(db: Db, m: Id, recipients: seq<string>, ids: seq<Id>, now: int, expires: int,
                                         id: Id)
    requires |ids| == |recipients| && Acceptance.RelayRows(db, m, recipients, ids, now, expires).Ok?
    requires id !in db.deliveries && id in Acceptance.RelayRows(db, m, recipients, ids, now, expires).value.deliveries
    ensures var next := Acceptance.RelayRows(db, m, recipients, ids, now, expires).value;
            var d := next.deliveries[id];
            next.queued == db.queued && d.message == m && d.state == Pending && d.attempts == 0
            && d.nextAttempt == now && d.expires == expires
    decreases |recipients|
  {
    var one := InsertDelivery(db, ids[0], Acceptance.RelayRow(m, recipients[0], now, expires)).value;
    if id in one.deliveries {
      RelayRowsKeep(one, m, recipients[1..], ids[1..], now, expires, id);
    } else {
      RelayRowsBorn(one, m, recipients[1..], ids[1..], now, expires, id);
    }
  }

  lemma {:induction false} RelayRowsKeep(db: Db, m: Id, recipients: seq<string>, ids: seq<Id>, now: int, expires: int,
                                         id: Id)
    requires |ids| == |recipients| && Acceptance.RelayRows(db, m, recipients, ids, now, expires).Ok?
    requires id in db.deliveries
    ensures var next := Acceptance.RelayRows(db, m, recipients, ids, now, expires).value;
            next.queued == db.queued && id in next.deliveries && next.deliveries[id] == db.deliveries[id]
    decreases |recipients|
  {
    if recipients != [] {
      var one := InsertDelivery(db, ids[0], Acceptance.RelayRow(m, recipients[0], now, expires)).value;
      RelayRowsKeep(one, m, recipients[1..], ids[1..], now, expires, id);
    }
  }

  lemma InsertRelayBorn(db: Db, m: Id, recipients: set<string>, meta: QueueMeta, ids: seq<Id>, now: int, id: Id)
    requires |ids| == |recipients| && Acceptance.InsertRelay(db, m, recipients, meta, ids, now).Ok?
    requires id !in db.deliveries && id in Acceptance.InsertRelay(db, m, recipients, meta, ids, now).value.deliveries
    ensures var next := Acceptance.InsertRelay(db, m, recipients, meta, ids, now).value;
            Scheduled(next, next.deliveries[id], now)
  {
    var queued := db.(queued := db.queued[m := meta]);
    RelayRowsBorn(queued, m, InOrder(recipients), ids, now, Queue.Later(now, meta.maxAge * 1000).value, id);
  }

  lemma AcceptSchedules(db: Db, q: Acceptance.Request, p: Acceptance.Prepared, ids: Acceptance.Fresh, now: int)
    requires Acceptance.AcceptNew(db, q, p, ids, now).Ok?
    ensures AllScheduled(db, Acceptance.AcceptNew(db, q, p, ids, now).value, now)
  {
    Growth.AcceptNewSplits(db, q, p, ids, now);
    var mid, next := Growth.Delivering(db, q, p, ids, now).value, Acceptance.AcceptNew(db, q, p, ids, now).value;
    forall id | id in next.deliveries && id !in db.deliveries && next.deliveries[id].route == Relay
      ensures Scheduled(next, next.deliveries[id], now)
    {
      if id in mid.deliveries {
        LocalBefore(db, q, p, ids, now, id);
      } else {
        InsertRelayBorn(mid, ids.message, Acceptance.RemoteOf(q), Acceptance.MetaOf(q).value,
                        Acceptance.Supply(ids.relay, |Acceptance.RemoteOf(q)|), now, id);
      }
    }
  }

  /** Rows of the local half are not relay rows, and the remote half leaves them alone. */
  lemma LocalBefore(db: Db, q: Acceptance.Request, p: Acceptance.Prepared, ids: Acceptance.Fresh, now: int, id: Id)
    requires Acceptance.AcceptNew(db, q, p, ids, now).Ok? && Growth.Delivering(db, q, p, ids, now).Ok?
    requires id !in db.deliveries && id in Growth.Delivering(db, q, p, ids, now).value.deliveries
    ensures var next := Acceptance.AcceptNew(db, q, p, ids, now).value;
            id in next.deliveries && next.deliveries[id].route == Local
  {
    Growth.AcceptNewSplits(db, q, p, ids, now);
    var mid := Growth.Delivering(db, q, p, ids, now).value;
    var head := Growth.Headed(db, ids.message, Growth.NewMessage(q, p), Blob(p.size, p.hash)).value;
    var local := Acceptance.LocalKeys(q.plan.recipients);
    Growth.DeliveredLocally(head, InOrder(local), ids.message, p.size, Acceptance.Supply(ids.local, |local|), now, id);
    if q.Relayed? {
      var meta := Acceptance.MetaOf(q).value;
      var remote := Acceptance.RemoteOf(q);
      RelayRowsKeep(mid.(queued := mid.queued[ids.message := meta]), ids.message, InOrder(remote),
                    Acceptance.Supply(ids.relay, |remote|), now, Queue.Later(now, meta.maxAge * 1000).value, id);
    }
  }

  lemma EnqueueSchedules(db: Db, plan: Acceptance.QueuePlan, p: Acceptance.Prepared, ids: Acceptance.Fresh, now: int)
    requires Acceptance.EnqueueNew(db, plan, p, ids, now).Ok?
    ensures AllScheduled(db, Acceptance.EnqueueNew(db, plan, p, ids, now).value, now)
  {
    var msg := Message(Operation(plan.operation), p.id, Import, Acceptance.SenderText(plan.sender), None);
    var head := Growth.Headed(db, ids.message, msg, Blob(p.size, p.hash)).value;
    var next := Acceptance.EnqueueNew(db, plan, p, ids, now).value;
    var remote := Acceptance.Texts(plan.recipients);
    forall id | id in next.deliveries && id !in db.deliveries ensures Scheduled(next, next.deliveries[id], now) {
      InsertRelayBorn(head, ids.message, remote, QueueMeta(plan.body, plan.maxAge),
                      Acceptance.Supply(ids.relay, |remote|), now, id);
    }
  }

  lemma ReportSchedules(db: Db, plan: Notification.Plan, p: Acceptance.Prepared, delivery: Id, now: int)
    requires plan.delivery in db.deliveries && Notification.CommitNew(db, plan, p, delivery, now).Ok?
    ensures AllScheduled(db, Notification.CommitNew(db, plan, p, delivery, now).value, now)
  {
    Reports.CommitSplits(db, plan, p, delivery, now);
    var head := Growth.Headed(db, plan.report, Reports.ReportMessage(plan, p), Blob(p.size, p.hash)).value;
    var mid := Reports.Reporting(db, plan, p, delivery, now).value;
    var next := Notification.CommitNew(db, plan, p, delivery, now).value;
    forall id | id in next.deliveries && id !in db.deliveries && next.deliveries[id].route == Relay
      ensures Scheduled(next, next.deliveries[id], now)
    {
      assert id in mid.deliveries && next.deliveries[id] == mid.deliveries[id] && next.queued == mid.queued;
      if plan.local {
        Reports.DeliverAdds(head, Addresses.LocalKey(plan.recipient), plan.report, p.size, delivery, now);
      } else {
        InsertRelayBorn(head, plan.report, {plan.recipient}, QueueMeta(SevenBit, plan.maxAge), [delivery], now, id);
      }
    }
  }

  /** Whatever the fate of its commit, an acceptance schedules every relay row it adds from its own time on, */
  lemma AcceptedIsScheduled(db: Db, q: Acceptance.Request, p: Acceptance.Prepared, ids: Acceptance.Fresh,
                            r: Clock.Reading, fate: Fate)
    ensures r.wall.Some? ==> AllScheduled(db, Acceptance.Accept(db, q, p, ids, r, fate).0, r.wall.value)
    ensures r.wall.None? ==> Acceptance.Accept(db, q, p, ids, r, fate).0 == db
  {
    Transactions.AcceptWrites(db, q, p, ids, r, fate);
    if Acceptance.Accept(db, q, p, ids, r, fate).0 != db {
      AcceptSchedules(db, q, p, ids, r.wall.value);
    }
  }

  /** ... so does an enqueue, */
  lemma EnqueuedIsScheduled(db: Db, plan: Acceptance.QueuePlan, p: Acceptance.Prepared, ids: Acceptance.Fresh,
                            r: Clock.Reading, fate: Fate)
    ensures r.wall.Some? ==> AllScheduled(db, Acceptance.Enqueue(db, plan, p, ids, r, fate).0, r.wall.value)
    ensures r.wall.None? ==> Acceptance.Enqueue(db, plan, p, ids, r, fate).0 == db
  {
    Transactions.EnqueueWrites(db, plan, p, ids, r, fate);
    if Acceptance.Enqueue(db, plan, p, ids, r, fate).0 != db {
      EnqueueSchedules(db, plan, p, ids, r.wall.value);
    }
  }

  /** ... and a report, from the trusted time. */
  lemma ReportedIsScheduled(s: Queue.Store, plan: Notification.Plan, p: Acceptance.Prepared, delivery: Id,
                            r: Clock.Reading, fate: Fate)
    ensures var t, now := Notification.CommitReport(s, plan, p, delivery, r, fate).0, Queue.Ticked(s, r).1;
            if now.Ok? then AllScheduled(s.db, t.db, now.value) else t.db == s.db
  {
    var t, now := Notification.CommitReport(s, plan, p, delivery, r, fate).0, Queue.Ticked(s, r).1;
    if now.Ok? && t.db != s.db {
      ReportSchedules(s.db, plan, p, delivery, now.value);
    }
  }

  // ---------------------------------------------------------------- and then it is tried

  /** Mail born at `born` is due from then on, and unexpired until its age is up. */
  lemma ScheduledIsDue(db: Db, id: Id, born: int, now: int)
    requires id in db.deliveries && db.deliveries[id].route == Relay && Scheduled(db, db.deliveries[id], born)
    requires born <= now < born + 1000 * db.queued[db.deliveries[id].message].maxAge
    ensures Key(born, id) in Fairness.Due(db, now) && db.deliveries[id].expires > now
  {
    Backlog.DueRow(db, now, Key(born, id));
  }

  /**
   * Accepted mail is tried: at any time before its age is up, N + 1 calls of `queue_claim` that find a free slot,
   * on a store where N rows are due, examine each of its relay rows, and lease it unless it has an owner or its
   * domain is full.
   */
  lemma AcceptedMailIsTried(db: Db, q: Acceptance.Request, p: Acceptance.Prepared, ids: Acceptance.Fresh,
                            r: Clock.Reading, fate: Fate, id: Id, calls: seq<Backlog.Call>, now: nat)
    requires Transactions.DbOk(db) && r.wall.Some? && calls != [] && Backlog.Calls(calls, now)
    requires calls[0].store.db == Acceptance.Accept(db, q, p, ids, r, fate).0
    requires id in calls[0].store.db.deliveries && id !in db.deliveries
    requires calls[0].store.db.deliveries[id].route == Relay
    requires q.Relayed? ==> r.wall.value <= now < r.wall.value + 1000 * q.relay.maxAge
    requires |calls| > |Fairness.Due(calls[0].store.db, now)|
    ensures exists j :: 0 <= j < |calls| && Tried(calls[j], now, id)
  {
    var next := calls[0].store.db;
    var d := next.deliveries[id];
    AcceptedIsScheduled(db, q, p, ids, r, fate);
    AskedAge(db, q, p, ids, r, fate, id);
    ScheduledIsDue(next, id, r.wall.value, now);
    assert Transactions.DbOk(next) by {
      Transactions.AcceptSound(db, q, p, ids, r, fate, {});
    }
    Backlog.ClaimsServeEveryDueRow(calls, now, Key(r.wall.value, id));
    var j :| 0 <= j < |calls| && Backlog.Handled(calls[j], now, Key(r.wall.value, id))
             && Backlog.SameRow(next, calls[j].store.db, Key(r.wall.value, id));
    HandledIsTried(calls[j], now, id, d);
  }

  /** The call examines the row, and leases it unless it has an owner or its domain is at its share. */
  ghost predicate Tried(c: Backlog.Call, now: nat, id: Id)
    requires Backlog.CallAt(c, now)
  {
    Backlog.CallReady(c, now);
    && id in c.store.db.deliveries
    && var f, ctx := Fairness.ScanOf(Backlog.RoundOf(c, now)).value, Backlog.RoundOf(c, now).ctx;
       || (exists i :: 0 <= i < |f.leases| && f.leases[i].id == id)
       || id in ctx.active
       || Fairness.AtShare(f, Addresses.DomainOf(c.store.db.deliveries[id].recipient), ctx)
  }

  lemma HandledIsTried(c: Backlog.Call, now: nat, id: Id, d: Delivery)
    requires Backlog.CallAt(c, now) && id in c.store.db.deliveries && c.store.db.deliveries[id] == d
    requires d.expires > now && d.attempts == 0 && d.generation == 0
    requires Backlog.Handled(c, now, Key(d.nextAttempt, id))
    ensures Tried(c, now, id)
  {
    Backlog.CallReady(c, now);
  }

  /** The age queued with a new relay row is the one asked for. */
  lemma AskedAge(db: Db, q: Acceptance.Request, p: Acceptance.Prepared, ids: Acceptance.Fresh, r: Clock.Reading,
                 fate: Fate, id: Id)
    requires Transactions.DbOk(db)
    requires var next := Acceptance.Accept(db, q, p, ids, r, fate).0;
             id in next.deliveries && id !in db.deliveries && next.deliveries[id].route == Relay
    ensures var next := Acceptance.Accept(db, q, p, ids, r, fate).0;
            && q.Relayed? && next.deliveries[id].message in next.queued && next.deliveries[id].generation == 0
            && next.queued[next.deliveries[id].message].maxAge == q.relay.maxAge
  {
    Transactions.AcceptWrites(db, q, p, ids, r, fate);
    Growth.AcceptNewGrows(db, q, p, ids, r.wall.value);
    var next := Acceptance.Accept(db, q, p, ids, r, fate).0;
    assert Growth.BornFor(next.deliveries[id], ids.message);
    assert next.deliveries[id].recipient in RecipientsOf(next, ids.message, Relay);
    assert Acceptance.Stored(next, ids.message) == Acceptance.Asked(q, p);
  }
}
