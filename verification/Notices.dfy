/** Which failures are reported, to whom, and when (crates/store/src/notification.rs). */
module Notices {
  import opened Wrappers
  import opened Tables
  import opened Ordering
  import Acceptance
  import Addresses
  import Charges
  import Clock
  import Growth
  import LocalDelivery
  import Moves
  import Notification
  import Queue
  import Reports
  import Transactions

  // ---------------------------------------------------------------- the next failure

  /** A relay delivery that failed, was not reported, and is to be looked at by now. */
  predicate Waits(db: Db, id: Id, now: int) {
    && id in db.deliveries && db.deliveries[id].route == Relay && db.deliveries[id].state == Failed
    && db.deliveries[id].notice == NotYet && db.deliveries[id].noticeDue <= now
  }

  /** ... and no other comes before it. */
  ghost predicate Foremost(db: Db, id: Id, now: int) {
    && Waits(db, id, now)
    && forall x :: Waits(db, x, now) && x != id ==>
         || db.deliveries[id].noticeDue < db.deliveries[x].noticeDue
         || (db.deliveries[id].noticeDue == db.deliveries[x].noticeDue && id < x)
  }

  lemma DueKey(db: Db, now: int, k: Key)
    requires Growth.Linked(db)
    ensures k in Notification.DueKeys(db, now) <==> Waits(db, k.id, now) && k.at == db.deliveries[k.id].noticeDue
  {
    if k.id in db.deliveries {
      assert Growth.DeliveryOk(db, db.deliveries[k.id]);
    }
  }

  lemma FirstIsForemost(db: Db, now: int)
    requires Growth.Linked(db)
    ensures var due := First(Notification.DueKeys(db, now), 1);
            if due == [] then forall x :: !Waits(db, x, now) else Foremost(db, due[0].id, now)
  {
    var keys := Notification.DueKeys(db, now);
    var due := First(keys, 1);
    forall x | Waits(db, x, now) ensures Key(db.deliveries[x].noticeDue, x) in keys {
      DueKey(db, now, Key(db.deliveries[x].noticeDue, x));
    }
    if due != [] {
      assert due[0] in keys;
      DueKey(db, now, due[0]);
      forall x | Waits(db, x, now) && x != due[0].id ensures Before(due[0], Key(db.deliveries[x].noticeDue, x)) {
        assert Key(db.deliveries[x].noticeDue, x) !in due;
      }
    }
  }

  /** The sender's domain is one of the server's own, in any case. */
  predicate Domestic(p: Notification.Policy, address: string) {
    exists i :: 0 <= i < |p.localDomains|
                && Addresses.Lower(p.localDomains[i]) == Addresses.Lower(Addresses.DomainOf(address))
  }

  /** The report text fits, its reader can take it, and a file for it could be reserved. */
  predicate Reportable(db: Db, p: Notification.Policy, sender: string, size: Option<nat>, staged: bool) {
    && size.Some? && size.value <= 16 * 1024 && staged
    && (Domestic(p, sender) ==>
          && Charges.Reachable(db, Addresses.LocalKey(sender))
          && Charges.Room(db.accounts[db.addresses[Addresses.LocalKey(sender)].account], 1, size.value))
  }

  lemma TargetExactly(db: Db, recipient: string, size: nat)
    ensures LocalDelivery.Target(db, recipient, size).Ok?
            <==> Charges.Reachable(db, recipient)
                 && Charges.Room(db.accounts[db.addresses[recipient].account], 1, size)
  {
  }

  lemma FailureReads(db: Db, id: Id)
    requires Growth.Linked(db) && id in db.deliveries && db.deliveries[id].route == Relay
    requires db.deliveries[id].message in db.messages && db.messages[db.deliveries[id].message].sender != ""
    ensures Addresses.IsAddress(db.messages[db.deliveries[id].message].sender)
    ensures Addresses.IsAddress(db.deliveries[id].recipient)
  {
    assert Growth.MessageOk(db, db.deliveries[id].message) && Growth.DeliveryOk(db, db.deliveries[id]);
  }

  lemma PlanExactly(db: Db, id: Id, p: Notification.Policy, report: Id, size: Option<nat>, staged: bool)
    requires id in db.deliveries && db.deliveries[id].message in db.messages
    requires Addresses.IsAddress(db.messages[db.deliveries[id].message].sender)
    requires Addresses.IsAddress(db.deliveries[id].recipient)
    ensures var sender := db.messages[db.deliveries[id].message].sender;
            var plan := Notification.PlanReport(db, id, p, report, size, staged);
            && (plan.Ok? <==> Reportable(db, p, sender, size, staged))
            && (plan.Ok? ==> Planned(plan.value, id, report, sender, p))
  {
    var sender := db.messages[db.deliveries[id].message].sender;
    if size.Some? {
      TargetExactly(db, Addresses.LocalKey(sender), size.value);
    }
  }

  predicate Planned(plan: Notification.Plan, id: Id, report: Id, sender: string, p: Notification.Policy) {
    && plan.delivery == id && plan.report == report && plan.recipient == sender
    && (plan.local <==> Domestic(p, sender)) && plan.maxAge == p.maxAge
  }

  /** Put off by a minute from the next trusted time, if there is one. */
  ghost predicate PutOff(s: Queue.Store, t: Queue.Store, id: Id, again: Clock.Reading)
    requires id in s.db.deliveries
  {
    var now := Queue.Ticked(s, again).1;
    t.db == if now.Err? then s.db
            else Queue.Put(s.db, id, s.db.deliveries[id].(noticeDue := Min(now.value + 60 * 1000, I64_MAX)))
  }

  lemma PostponeIs(s: Queue.Store, id: Id, again: Clock.Reading)
    requires id in s.db.deliveries && s.db.deliveries[id].state == Failed && s.db.deliveries[id].notice == NotYet
    ensures PutOff(s, Notification.Postpone(s, id, again).0, id, again)
  {
  }

  /** What becomes of the failure that was chosen. */
  ghost predicate Chosen(s: Queue.Store, t: Queue.Store, work: Result<Notification.Work, StoreError>, id: Id,
                         p: Notification.Policy, report: Id, size: Option<nat>, staged: bool, again: Clock.Reading)
    requires id in s.db.deliveries && s.db.deliveries[id].message in s.db.messages
  {
    var m := s.db.messages[s.db.deliveries[id].message];
    if m.source != Submission || m.sender == "" || m.account.None? then
      && work == Ok(Notification.SuppressedOne)
      && t.db == Queue.Put(s.db, id, s.db.deliveries[id].(notice := Suppressed))
    else if Reportable(s.db, p, m.sender, size, staged) then
      && t.db == s.db && work.Ok? && work.value.Prepare?
      && Planned(work.value.plan, id, report, m.sender, p)
    else work.Err? && PutOff(s, t, id, again)
  }

  lemma OfferExactly(s: Queue.Store, id: Id, p: Notification.Policy, report: Id, size: Option<nat>, staged: bool,
                     again: Clock.Reading)
    requires Growth.Linked(s.db) && id in s.db.deliveries && Transactions.Unreported(s.db.deliveries[id])
    requires s.db.deliveries[id].message in s.db.messages
    ensures var plan := Notification.PlanReport(s.db, id, p, report, size, staged);
            var (t, work) := Notification.Offer(s, id, plan, again);
            Chosen(s, t, work, id, p, report, size, staged, again)
  {
    var m := s.db.messages[s.db.deliveries[id].message];
    if m.source == Submission && m.sender != "" && m.account.Some? {
      FailureReads(s.db, id);
      PlanExactly(s.db, id, p, report, size, staged);
      PostponeIs(s, id, again);
    }
  }

  /**
   * At a trusted time and under a valid policy, the next piece of work is none exactly when no unreported failure
   * is due; otherwise it concerns the foremost one, which is passed over for good exactly if nobody is to be told,
   * and else is planned for its message's sender, or put off.
   */
  lemma NextExactly(s: Queue.Store, p: Notification.Policy, report: Id, size: Option<nat>, staged: bool,
                    r: Clock.Reading, again: Clock.Reading) returns (id: Id)
    requires Growth.Linked(s.db) && Notification.ValidPolicy(p) && Queue.Ticked(s, r).1.Ok?
    ensures var (t, work) := Notification.Next(s, p, report, size, staged, r, again);
            var now, ticked := Queue.Ticked(s, r).1.value, Queue.Ticked(s, r).0;
            && (work == Ok(Notification.Empty) <==> forall x :: !Waits(s.db, x, now))
            && (work == Ok(Notification.Empty) ==> t.db == s.db)
            && (work != Ok(Notification.Empty) ==>
                  && Foremost(s.db, id, now) && s.db.deliveries[id].message in s.db.messages
                  && Chosen(ticked, t, work, id, p, report, size, staged, again))
  {
    var now, ticked := Queue.Ticked(s, r).1.value, Queue.Ticked(s, r).0;
    var due := First(Notification.DueKeys(s.db, now), 1);
    FirstIsForemost(s.db, now);
    id := 0;
    if due != [] {
      id := due[0].id;
      assert Growth.DeliveryOk(s.db, s.db.deliveries[id]);
      OfferExactly(ticked, id, p, report, size, staged, again);
    }
  }

  /** Backing off moves the time of an unreported failure, and nothing else of anything. */
  lemma FailedRecords(s: Queue.Store, id: Id, r: Clock.Reading)
    requires Queue.Ticked(s, r).1.Ok?
    ensures var (t, done) := Notification.Postpone(s, id, r);
            var later := Min(Queue.Ticked(s, r).1.value + 60 * 1000, I64_MAX);
            var open := id in s.db.deliveries && s.db.deliveries[id].state == Failed
              && s.db.deliveries[id].notice == NotYet;
            && done == Ok(())
            && t.db == if open then Queue.Put(s.db, id, s.db.deliveries[id].(noticeDue := later)) else s.db
  {
  }

  // ---------------------------------------------------------------- the report itself

  /** The report: a generated message from nobody, with one delivery, to the planned recipient. */
  ghost predicate ReportsTo(db: Db, plan: Notification.Plan, p: Acceptance.Prepared) {
    && plan.report in db.messages
    && db.messages[plan.report] == Message(Report(plan.delivery), p.id, Dsn, "", None)
    && p.id in db.blobs && db.blobs[p.id] == Blob(p.size, p.hash)
    && (if plan.local then
          && RecipientsOf(db, plan.report, Local) == {Addresses.LocalKey(plan.recipient)}
          && RecipientsOf(db, plan.report, Relay) == {} && plan.report !in db.queued
        else
          && RecipientsOf(db, plan.report, Relay) == {plan.recipient}
          && RecipientsOf(db, plan.report, Local) == {}
          && plan.report in db.queued && db.queued[plan.report] == QueueMeta(SevenBit, plan.maxAge))
  }

  /** The message and blob rows of the report are in, and nothing addresses it yet. */
  ghost predicate HeadOf(db: Db, plan: Notification.Plan, p: Acceptance.Prepared) {
    && plan.report in db.messages
    && db.messages[plan.report] == Message(Report(plan.delivery), p.id, Dsn, "", None)
    && p.id in db.blobs && db.blobs[p.id] == Blob(p.size, p.hash) && plan.report !in db.queued
    && RecipientsOf(db, plan.report, Local) == {} && RecipientsOf(db, plan.report, Relay) == {}
  }

  lemma HeadTells(db: Db, plan: Notification.Plan, p: Acceptance.Prepared)
    requires Growth.Linked(db)
    requires Growth.Headed(db, plan.report, Reports.ReportMessage(plan, p), Blob(p.size, p.hash)).Ok?
    ensures HeadOf(Growth.Headed(db, plan.report, Reports.ReportMessage(plan, p), Blob(p.size, p.hash)).value, plan, p)
  {
    Growth.HeadedGrows(db, plan.report, Reports.ReportMessage(plan, p), Blob(p.size, p.hash));
  }

  lemma LocalTells(head: Db, plan: Notification.Plan, p: Acceptance.Prepared, delivery: Id, now: int)
    requires HeadOf(head, plan, p) && plan.local
    requires LocalDelivery.Deliver(head, Addresses.LocalKey(plan.recipient), plan.report, p.size, delivery, now).Ok?
    ensures ReportsTo(LocalDelivery.Deliver(head, Addresses.LocalKey(plan.recipient), plan.report, p.size, delivery,
                                            now).value, plan, p)
  {
    Reports.DeliverAdds(head, Addresses.LocalKey(plan.recipient), plan.report, p.size, delivery, now);
    Growth.DeliverRecords(head, Addresses.LocalKey(plan.recipient), plan.report, p.size, delivery, now);
  }

  lemma RemoteTells(head: Db, plan: Notification.Plan, p: Acceptance.Prepared, delivery: Id, now: int)
    requires HeadOf(head, plan, p) && !plan.local
    requires Acceptance.InsertRelay(head, plan.report, {plan.recipient}, QueueMeta(SevenBit, plan.maxAge), [delivery],
                                    now).Ok?
    ensures ReportsTo(Acceptance.InsertRelay(head, plan.report, {plan.recipient}, QueueMeta(SevenBit, plan.maxAge),
                                             [delivery], now).value, plan, p)
  {
    Growth.InsertRelayAdds(head, plan.report, {plan.recipient}, QueueMeta(SevenBit, plan.maxAge), [delivery], now);
  }

  lemma ReportingTells(db: Db, plan: Notification.Plan, p: Acceptance.Prepared, delivery: Id, now: int)
    requires Growth.Linked(db) && Reports.Reporting(db, plan, p, delivery, now).Ok?
    ensures ReportsTo(Reports.Reporting(db, plan, p, delivery, now).value, plan, p)
  {
    HeadTells(db, plan, p);
    var head := Growth.Headed(db, plan.report, Reports.ReportMessage(plan, p), Blob(p.size, p.hash)).value;
    if plan.local {
      LocalTells(head, plan, p, delivery, now);
    } else {
      RemoteTells(head, plan, p, delivery, now);
    }
  }

  /** Recipients are read off columns that never change. */
  lemma SameMailRecipients(db: Db, next: Db, m: Id, route: Route)
    requires next.deliveries.Keys == db.deliveries.Keys
    requires forall id :: id in db.deliveries ==> Moves.SameMail(db.deliveries[id], next.deliveries[id])
    ensures RecipientsOf(next, m, route) == RecipientsOf(db, m, route)
  {
    forall id | id in db.deliveries
      ensures next.deliveries[id].message == db.deliveries[id].message
              && next.deliveries[id].route == db.deliveries[id].route
              && next.deliveries[id].recipient == db.deliveries[id].recipient
    {
      assert Moves.SameMail(db.deliveries[id], next.deliveries[id]);
    }
  }

  lemma LinkingTells(mid: Db, plan: Notification.Plan, p: Acceptance.Prepared)
    requires ReportsTo(mid, plan, p) && plan.delivery in mid.deliveries
    ensures ReportsTo(Reports.Linking(mid, plan), plan, p)
  {
    var next := Reports.Linking(mid, plan);
    SameMailRecipients(mid, next, plan.report, Local);
    SameMailRecipients(mid, next, plan.report, Relay);
  }

  /**
   * A report commit whose answer is new and confirmed marks the failure as reported and leaves one report, to the
   * planned recipient alone, and only for a certain, unreported failure of that sender's submission.
   */
  lemma CommitReportTells(s: Queue.Store, plan: Notification.Plan, p: Acceptance.Prepared, delivery: Id,
                          r: Clock.Reading)
    requires Growth.Linked(s.db)
    ensures var (t, answer) := Notification.CommitReport(s, plan, p, delivery, r, Confirmed);
            && (answer.Ok? && answer.value.alreadyCommitted ==>
                  && t.db == s.db && plan.delivery in s.db.notifications
                  && answer.value.message == s.db.notifications[plan.delivery])
            && (answer.Ok? && !answer.value.alreadyCommitted ==>
                  && answer.value.message == plan.report && ReportsTo(t.db, plan, p)
                  && plan.delivery !in s.db.notifications
                  && t.db.notifications == s.db.notifications[plan.delivery := plan.report]
                  && ReportedFailure(s.db, plan) && plan.delivery in t.db.deliveries
                  && t.db.deliveries[plan.delivery] == s.db.deliveries[plan.delivery].(notice := Created))
            && (answer.Err? ==> t.db == s.db)
  {
    var now := Queue.Ticked(s, r).1;
    if now.Ok? && plan.delivery !in s.db.notifications && Notification.Eligible(s.db, plan) {
      var tx := Notification.CommitNew(s.db, plan, p, delivery, now.value);
      if tx.Ok? {
        NewReportTells(s.db, plan, p, delivery, now.value);
      }
    }
  }

  /** A relay delivery of this sender's submission that certainly failed and was not reported. */
  predicate ReportedFailure(db: Db, plan: Notification.Plan) {
    && plan.delivery in db.deliveries
    && var d := db.deliveries[plan.delivery];
       && d.route == Relay && d.state == Failed && !d.possiblyDelivered && d.notice == NotYet
       && d.message in db.messages
       && db.messages[d.message].source == Submission && db.messages[d.message].account.Some?
       && db.messages[d.message].sender == plan.recipient
  }

  lemma NewReportTells(db: Db, plan: Notification.Plan, p: Acceptance.Prepared, delivery: Id, now: int)
    requires Growth.Linked(db) && plan.delivery in db.deliveries
             && Notification.CommitNew(db, plan, p, delivery, now).Ok?
    ensures var next := Notification.CommitNew(db, plan, p, delivery, now).value;
            && ReportsTo(next, plan, p) && next.notifications == db.notifications[plan.delivery := plan.report]
            && plan.delivery in next.deliveries
            && next.deliveries[plan.delivery] == db.deliveries[plan.delivery].(notice := Created)
  {
    Reports.CommitSplits(db, plan, p, delivery, now);
    ReportingTells(db, plan, p, delivery, now);
    var mid := Reports.Reporting(db, plan, p, delivery, now).value;
    LinkingTells(mid, plan, p);
    ReportingAdds(db, plan, p, delivery, now);
  }

  lemma ReportingAdds(db: Db, plan: Notification.Plan, p: Acceptance.Prepared, delivery: Id, now: int)
    requires plan.delivery in db.deliveries && Reports.Reporting(db, plan, p, delivery, now).Ok?
    ensures var mid := Reports.Reporting(db, plan, p, delivery, now).value;
            && mid.notifications == db.notifications && plan.delivery in mid.deliveries
            && mid.deliveries[plan.delivery] == db.deliveries[plan.delivery]
  {
    var head := Growth.Headed(db, plan.report, Reports.ReportMessage(plan, p), Blob(p.size, p.hash)).value;
    if plan.local {
      Reports.DeliverAdds(head, Addresses.LocalKey(plan.recipient), plan.report, p.size, delivery, now);
    } else {
      Growth.InsertRelayAdds(head, plan.report, {plan.recipient}, QueueMeta(SevenBit, plan.maxAge), [delivery], now);
    }
  }

  /** The ids drawn for a report are new, and so is its key. */
  predicate Unused(db: Db, plan: Notification.Plan, p: Acceptance.Prepared, delivery: Id) {
    && p.id !in db.blobs && plan.report !in db.messages && delivery !in db.deliveries
    && Report(plan.delivery) !in db.keys && plan.delivery !in db.notifications
  }

  lemma HeadFits(db: Db, plan: Notification.Plan, p: Acceptance.Prepared, delivery: Id) returns (head: Db)
    requires Growth.Linked(db) && Unused(db, plan, p, delivery)
    ensures Growth.Headed(db, plan.report, Reports.ReportMessage(plan, p), Blob(p.size, p.hash)) == Ok(head)
    ensures head.accounts == db.accounts && head.addresses == db.addresses && head.deliveries == db.deliveries
    ensures plan.report in head.messages && plan.report !in head.queued
    ensures forall x :: x in db.deliveries ==> db.deliveries[x].message != plan.report
  {
    Growth.HeadedGrows(db, plan.report, Reports.ReportMessage(plan, p), Blob(p.size, p.hash));
    head := Growth.Headed(db, plan.report, Reports.ReportMessage(plan, p), Blob(p.size, p.hash)).value;
    assert forall x :: x in db.deliveries ==> Growth.DeliveryOk(db, db.deliveries[x]);
  }

  lemma ReportInserts(db: Db, plan: Notification.Plan, p: Acceptance.Prepared, delivery: Id, now: int)
    requires Growth.Linked(db) && Unused(db, plan, p, delivery)
    ensures Reports.Reporting(db, plan, p, delivery, now).Ok?
            <==> if plan.local
                 then && Charges.Reachable(db, Addresses.LocalKey(plan.recipient))
                      && Charges.Room(db.accounts[db.addresses[Addresses.LocalKey(plan.recipient)].account], 1, p.size)
                 else now + plan.maxAge * 1000 <= I64_MAX
  {
    var head := HeadFits(db, plan, p, delivery);
    if plan.local {
      Charges.DeliverExactly(head, Addresses.LocalKey(plan.recipient), plan.report, p.size, delivery, now);
    } else {
      Charges.InsertRelayExactly(head, plan.report, {plan.recipient}, QueueMeta(SevenBit, plan.maxAge), [delivery],
                                 now);
    }
  }

  lemma CommitSplitsExactly(db: Db, plan: Notification.Plan, p: Acceptance.Prepared, delivery: Id, now: int)
    requires plan.delivery in db.deliveries && plan.delivery !in db.notifications
    ensures Notification.CommitNew(db, plan, p, delivery, now).Ok? <==>
            Reports.Reporting(db, plan, p, delivery, now).Ok?
  {
    if Reports.Reporting(db, plan, p, delivery, now).Ok? {
      ReportingAdds(db, plan, p, delivery, now);
    }
  }

  /**
   * With new ids, the report of a certain, unreported failure of that sender's submission is committed exactly when its
   * reader's account can take it or, for a remote reader, its expiry is representable.
   */
  lemma CommitReportExactly(s: Queue.Store, plan: Notification.Plan, p: Acceptance.Prepared, delivery: Id,
                            r: Clock.Reading)
    requires Growth.Linked(s.db) && Unused(s.db, plan, p, delivery) && Queue.Ticked(s, r).1.Ok?
    ensures Notification.CommitReport(s, plan, p, delivery, r, Confirmed).1.Ok?
            <==> && ReportedFailure(s.db, plan)
                 && if plan.local
                    then && Charges.Reachable(s.db, Addresses.LocalKey(plan.recipient))
                         && Charges.Room(s.db.accounts[s.db.addresses[Addresses.LocalKey(plan.recipient)].account], 1,
                                         p.size)
                    else Queue.Ticked(s, r).1.value + plan.maxAge * 1000 <= I64_MAX
  {
    var now := Queue.Ticked(s, r).1.value;
    if ReportedFailure(s.db, plan) {
      CommitSplitsExactly(s.db, plan, p, delivery, now);
      ReportInserts(s.db, plan, p, delivery, now);
    }
  }
}
