/** The failure-report outbox (crates/store/src/notification.rs). */
module Notification {
  import opened Wrappers
  import opened Tables
  import opened Ordering
  import opened Addresses
  import Acceptance
  import Clock
  import LocalDelivery
  import Queue

  const MAX_REPORT := 16384
  const RETRY_MS := 60_000

  datatype Policy = Policy(hostname: string, localDomains: seq<string>, maxAge: nat)

  /** `validate`: the report author must itself be an address. */
  predicate ValidPolicy(p: Policy) {
    && ValidDomain(p.hostname)
    && 1 <= |p.localDomains| <= 100
    && (forall i :: 0 <= i < |p.localDomains| ==> ValidDomain(p.localDomains[i]))
    && 1 <= p.maxAge <= Acceptance.MAX_AGE
    && Parse("postmaster@" + p.localDomains[0]).Some?
  }

  datatype Plan = Plan(delivery: Id, report: Id, recipient: Address, local: bool, maxAge: nat)

  datatype Work = Empty | SuppressedOne | Prepare(plan: Plan)

  function DueKeys(db: Db, now: int): set<Key> {
    set id | id in db.deliveries && db.deliveries[id].route == Relay && db.deliveries[id].state == State.Failed
             && db.deliveries[id].notice == NotYet && db.deliveries[id].noticeDue <= now
             && db.deliveries[id].message in db.messages
      :: Key(db.deliveries[id].noticeDue, id)
  }

  predicate Reportable(m: Message) {
    m.source == Submission && m.sender != "" && m.account.Some?
  }

  function Suppress(db: Db, id: Id): Db
    requires id in db.deliveries
  {
    Queue.Put(db, id, db.deliveries[id].(notice := Suppressed))
  }

  /** `notification_failed`: back off, but only while the failure is still unreported. */
  function Postpone(s: Queue.Store, id: Id, r: Clock.Reading): (Queue.Store, Result<(), StoreError>) {
    var (s1, now) := Queue.Ticked(s, r);
    if now.Err? then (s1, Err(now.error))
    else if id in s1.db.deliveries && s1.db.deliveries[id].state == State.Failed
      && s1.db.deliveries[id].notice == NotYet
    then
      var d := s1.db.deliveries[id];
      (s1.(db := Queue.Put(s1.db, id, d.(noticeDue := Queue.SaturatingAdd(now.value, RETRY_MS)))), Ok(()))
    else (s1, Ok(()))
  }

  predicate IsLocal(p: Policy, domain: string) {
    exists i :: 0 <= i < |p.localDomains| && Lower(p.localDomains[i]) == Lower(domain)
  }

  /**
   * The preparation of one report: `size` is the length of the rendered text (nothing when it
   * cannot be rendered), `staged` whether a staging file could be reserved.
   */
  function PlanReport(db: Db, id: Id, p: Policy, report: Id, size: Option<nat>, staged: bool)
    : (r: Result<Plan, StoreError>)
    requires id in db.deliveries && db.deliveries[id].message in db.messages
  {
    var m := db.messages[db.deliveries[id].message];
    var recipient := Parse(m.sender);
    if recipient.None? || Parse(db.deliveries[id].recipient).None? then Err(Integrity)
    else if size.None? || size.value > MAX_REPORT then Err(SizeLimit)
    else
      var local := IsLocal(p, DomainOf(recipient.value));
      var target := LocalDelivery.Target(db, LocalKey(recipient.value), size.value);
      if local && target.Err? then Err(target.error)
      else if !staged then Err(DiskReserve)
      else
        ParsedIsCanonical(m.sender);
        Ok(Plan(id, report, recipient.value, local, p.maxAge))
  }

  /** The chosen failure: suppressed for good, planned, or put off. */
  function Offer(s: Queue.Store, id: Id, plan: Result<Plan, StoreError>, again: Clock.Reading)
    : (Queue.Store, Result<Work, StoreError>)
    requires id in s.db.deliveries && s.db.deliveries[id].message in s.db.messages
  {
    if !Reportable(s.db.messages[s.db.deliveries[id].message]) then
      (s.(db := Suppress(s.db, id)), Ok(SuppressedOne))
    else if plan.Ok? then (s, Ok(Prepare(plan.value)))
    else
      var (s1, backed) := Postpone(s, id, again);
      (s1, Err(if backed.Err? then backed.error else plan.error))
  }

  function Next(s: Queue.Store, p: Policy, report: Id, size: Option<nat>, staged: bool,
                r: Clock.Reading, again: Clock.Reading): (Queue.Store, Result<Work, StoreError>)
  {
    if !ValidPolicy(p) then (s, Err(InvalidInput))
    else
      var (s1, now) := Queue.Ticked(s, r);
      if now.Err? then (s1, Err(now.error))
      else
        var due := First(DueKeys(s1.db, now.value), 1);
        if due == [] then (s1, Ok(Empty))
        else Offer(s1, due[0].id, PlanReport(s1.db, due[0].id, p, report, size, staged), again)
  }

  predicate Eligible(db: Db, plan: Plan) {
    && plan.delivery in db.deliveries
    && var d := db.deliveries[plan.delivery];
       && d.state == State.Failed && d.route == Relay && !d.possiblyDelivered && d.notice == NotYet
       && d.message in db.messages
       && var m := db.messages[d.message];
          m.source == Submission && m.account.Some? && m.sender == plan.recipient
  }

  /** One transaction links failure, report, delivery and any local counters. */
  function CommitNew(db: Db, plan: Plan, p: Acceptance.Prepared, delivery: Id, now: int): (r: Result<Db, StoreError>) {
    var db1 :- InsertBlob(db, p.id, Blob(p.size, p.hash));
    var db2 :- InsertMessage(db1, plan.report, Message(Report(plan.delivery), p.id, Dsn, "", None));
    var db3 :- if plan.local
               then LocalDelivery.Deliver(db2, LocalKey(plan.recipient), plan.report, p.size, delivery, now)
               else Acceptance.InsertRelay(db2, plan.report, {plan.recipient}, QueueMeta(SevenBit, plan.maxAge),
                                           [delivery], now);
    if plan.delivery in db3.notifications || plan.delivery !in db3.deliveries then Err(Database)
    else
      var d := db3.deliveries[plan.delivery];
      Ok(Queue.Put(db3.(notifications := db3.notifications[plan.delivery := plan.report]),
                   plan.delivery, d.(notice := Created)))
  }

  function CommitReport(s: Queue.Store, plan: Plan, p: Acceptance.Prepared, delivery: Id, r: Clock.Reading, fate: Fate)
    : (Queue.Store, Result<Acceptance.Receipt, StoreError>)
  {
    var (s1, now) := Queue.Ticked(s, r);
    if now.Err? then (s1, Err(now.error))
    else if plan.delivery in s1.db.notifications then
      (s1, Ok(Acceptance.Receipt(s1.db.notifications[plan.delivery], true)))
    else if !Eligible(s1.db, plan) then (s1, Err(InvalidInput))
    else
      var tx := CommitNew(s1.db, plan, p, delivery, now.value);
      if tx.Err? then (s1, Err(tx.error))
      else Queue.Commit(s1, tx.value, fate, Acceptance.Receipt(plan.report, false))
  }
}
