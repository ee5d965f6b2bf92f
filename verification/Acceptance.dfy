/** Atomic, replayable acceptance (Store::accept_inner and Store::enqueue). */
module Acceptance {
  import opened Wrappers
  import opened Tables
  import opened Ordering
  import opened Addresses
  import Clock
  import Identity
  import LocalDelivery
  import Queue

  const MAX_RECIPIENTS := 100
  const MAX_AGE := 604_800

  /** A durable staged file: id, length and hash. */
  datatype Prepared = Prepared(id: Id, size: nat, hash: string)

  datatype Plan = Plan(operation: Id, sender: Option<Address>, recipients: seq<Address>)
  datatype Submitter = Submitter(principal: Identity.Principal, author: Address)
  datatype RelayPlan = RelayPlan(recipients: seq<Address>, body: BodyMode, maxAge: nat)

  /** The three public ways into `accept_inner`; relaying always carries an identity. */
  datatype Request =
    | Plain(plan: Plan)
    | Submitted(plan: Plan, submitter: Submitter)
    | Relayed(plan: Plan, submitter: Submitter, relay: RelayPlan)

  datatype QueuePlan = QueuePlan(operation: Id, sender: Option<Address>, recipients: seq<Address>,
                                 body: BodyMode, maxAge: nat)

  /** Fresh identifiers drawn by one call. */
  datatype Fresh = Fresh(message: Id, local: seq<Id>, relay: seq<Id>)

  datatype Receipt = Receipt(message: Id, alreadyCommitted: bool)

  function SenderText(sender: Option<Address>): string {
    if sender.Some? then sender.value else ""
  }

  function LocalKeys(recipients: seq<Address>): set<string> {
    set i | 0 <= i < |recipients| :: LocalKey(recipients[i])
  }

  function Texts(recipients: seq<Address>): set<string> {
    set i | 0 <= i < |recipients| :: recipients[i]
  }

  function RemoteOf(q: Request): set<string> { if q.Relayed? then Texts(q.relay.recipients) else {} }
  function MetaOf(q: Request): Option<QueueMeta> {
    if q.Relayed? then Some(QueueMeta(q.relay.body, q.relay.maxAge)) else None
  }
  function AccountOf(q: Request): Option<string> { if q.Plain? then None else Some(q.submitter.principal.account) }

  predicate ValidRequest(q: Request) {
    var remote := if q.Relayed? then |q.relay.recipients| else 0;
    && 1 <= |q.plan.recipients| + remote <= MAX_RECIPIENTS
    && (q.Relayed? ==> q.relay.recipients != [] && 1 <= q.relay.maxAge <= MAX_AGE)
  }

  predicate Permitted(db: Db, q: Request) {
    q.Plain? || (q.plan.sender.Some?
                 && Identity.MaySend(db, q.submitter.principal, LocalKey(q.plan.sender.value))
                 && Identity.MaySend(db, q.submitter.principal, LocalKey(q.submitter.author)))
  }

  /** Everything an accepted operation is compared on when its key is used again. */
  datatype Terms = Terms(sender: string, hash: string, size: nat, local: set<string>,
                             remote: set<string>, meta: Option<QueueMeta>, account: Option<string>)

  function Asked(q: Request, p: Prepared): Terms {
    Terms(SenderText(q.plan.sender), p.hash, p.size, LocalKeys(q.plan.recipients), RemoteOf(q),
            MetaOf(q), AccountOf(q))
  }

  function Stored(db: Db, id: Id): Terms
    requires id in db.messages && db.messages[id].blob in db.blobs
  {
    var m := db.messages[id];
    var b := db.blobs[m.blob];
    Terms(m.sender, b.hash, b.size, RecipientsOf(db, id, Local), RecipientsOf(db, id, Relay),
            if id in db.queued then Some(db.queued[id]) else None, m.account)
  }

  function RelayRow(message: Id, recipient: string, now: int, expires: int): Delivery {
    Delivery(message, recipient, Relay, Pending, 0, 0, now, expires, None, None, None, None, false, None, NotYet, 0)
  }

  function RelayRows(db: Db, message: Id, recipients: seq<string>, ids: seq<Id>, now: int, expires: int)
    : (r: Result<Db, StoreError>)
    requires |ids| == |recipients|
    decreases |recipients|
  {
    if recipients == [] then Ok(db)
    else
      var db1 :- InsertDelivery(db, ids[0], RelayRow(message, recipients[0], now, expires));
      RelayRows(db1, message, recipients[1..], ids[1..], now, expires)
  }

  /** `insert_relay`. */
  function InsertRelay(db: Db, message: Id, recipients: set<string>, meta: QueueMeta, ids: seq<Id>, now: int)
    : (r: Result<Db, StoreError>)
    requires |ids| == |recipients|
  {
    var expires :- Queue.Later(now, meta.maxAge * 1000);
    if message in db.queued then Err(Database)
    else RelayRows(db.(queued := db.queued[message := meta]), message, InOrder(recipients), ids, now, expires)
  }

  /** Ids for a set of recipients; a short supply counts as one that repeats an existing id. */
  function Supply(ids: seq<Id>, n: nat): (r: seq<Id>)
    ensures |r| == n
  {
    if n <= |ids| then ids[..n] else ids + seq(n - |ids|, _ => 0)
  }

  /** The inserting half of `accept_inner`. */
  function AcceptNew(db: Db, q: Request, p: Prepared, ids: Fresh, now: int): (r: Result<Db, StoreError>) {
    var db1 :- InsertBlob(db, p.id, Blob(p.size, p.hash));
    var source := if q.Plain? then Smtp else Submission;
    var db2 :- InsertMessage(db1, ids.message,
                             Message(Operation(q.plan.operation), p.id, source, SenderText(q.plan.sender),
                                     AccountOf(q)));
    var local := LocalKeys(q.plan.recipients);
    var db3 :- LocalDelivery.DeliverAll(db2, InOrder(local), ids.message, p.size,
                                        Supply(ids.local, |local|), now);
    if q.Relayed? then
      InsertRelay(db3, ids.message, RemoteOf(q), MetaOf(q).value, Supply(ids.relay, |RemoteOf(q)|), now)
    else Ok(db3)
  }

  /** What is answered under a key that is in use. */
  function KnownAnswer(db: Db, q: Request, p: Prepared): Result<Receipt, StoreError>
    requires Operation(q.plan.operation) in db.keys
  {
    var id := db.keys[Operation(q.plan.operation)];
    if id !in db.messages || db.messages[id].blob !in db.blobs then Err(Database)
    else if Stored(db, id) != Asked(q, p) then Err(IdempotencyConflict)
    else Ok(Receipt(id, true))
  }

  /** `accept_inner` up to its commit: the new database and the receipt. */
  function AcceptTx(db: Db, q: Request, p: Prepared, ids: Fresh, r: Clock.Reading)
    : (out: Result<(Db, Receipt), StoreError>)
  {
    if !ValidRequest(q) then Err(InvalidInput)
    else if !Permitted(db, q) then Err(PermissionDenied)
    else if Operation(q.plan.operation) in db.keys then
      var known :- KnownAnswer(db, q, p);
      Ok((db, known))
    else if r.wall.None? then Err(InvalidInput)
    else
      var db1 :- AcceptNew(db, q, p, ids, r.wall.value);
      Ok((db1, Receipt(ids.message, false)))
  }

  function Settled(db: Db, tx: Result<(Db, Receipt), StoreError>, fate: Fate): (Db, Result<Receipt, StoreError>) {
    if tx.Err? then (db, Err(tx.error))
    else if tx.value.1.alreadyCommitted then (db, Ok(tx.value.1))
    else (Settle(db, tx.value.0, fate), if fate.Confirmed? then Ok(tx.value.1) else Err(OutcomeUnknown))
  }

  function Accept(db: Db, q: Request, p: Prepared, ids: Fresh, r: Clock.Reading, fate: Fate)
    : (Db, Result<Receipt, StoreError>)
  {
    Settled(db, AcceptTx(db, q, p, ids, r), fate)
  }

  /** A request under a new key is the inserting half and its commit. */
  lemma AcceptOfNew(db: Db, q: Request, p: Prepared, ids: Fresh, r: Clock.Reading, fate: Fate)
    requires ValidRequest(q) && Permitted(db, q) && Operation(q.plan.operation) !in db.keys
    ensures r.wall.None? ==> Accept(db, q, p, ids, r, fate) == (db, Err(InvalidInput))
    ensures r.wall.Some? ==>
              var done := AcceptNew(db, q, p, ids, r.wall.value);
              Accept(db, q, p, ids, r, fate)
              == if done.Err? then (db, Err(done.error))
                 else (Settle(db, done.value, fate),
                       if fate.Confirmed? then Ok(Receipt(ids.message, false)) else Err(OutcomeUnknown))
  {
  }

  /** ... and one under a known key is answered from what is stored. */
  lemma AcceptOfKnown(db: Db, q: Request, p: Prepared, ids: Fresh, r: Clock.Reading, fate: Fate)
    requires ValidRequest(q) && Permitted(db, q) && Operation(q.plan.operation) in db.keys
    ensures Accept(db, q, p, ids, r, fate) == (db, KnownAnswer(db, q, p))
  {
  }

  // ---------------------------------------------------------------- enqueue

  predicate ValidQueuePlan(plan: QueuePlan) {
    1 <= |plan.recipients| <= MAX_RECIPIENTS && 1 <= plan.maxAge <= MAX_AGE
  }

  function Enqueued(plan: QueuePlan, p: Prepared): Terms {
    Terms(SenderText(plan.sender), p.hash, p.size, {}, Texts(plan.recipients),
            Some(QueueMeta(plan.body, plan.maxAge)), None)
  }

  /** What `enqueue` compares: local recipients and the account are not looked at, the source is. */
  predicate SameImport(db: Db, id: Id, plan: QueuePlan, p: Prepared)
    requires id in db.messages && db.messages[id].blob in db.blobs
  {
    var stored := Stored(db, id);
    && db.messages[id].source == Import
    && stored.(local := {}, account := None) == Enqueued(plan, p)
  }

  function EnqueueNew(db: Db, plan: QueuePlan, p: Prepared, ids: Fresh, now: int): (r: Result<Db, StoreError>) {
    var db1 :- InsertBlob(db, p.id, Blob(p.size, p.hash));
    var db2 :- InsertMessage(db1, ids.message,
                             Message(Operation(plan.operation), p.id, Import, SenderText(plan.sender), None));
    var remote := Texts(plan.recipients);
    InsertRelay(db2, ids.message, remote, QueueMeta(plan.body, plan.maxAge), Supply(ids.relay, |remote|), now)
  }

  function EnqueueTx(db: Db, plan: QueuePlan, p: Prepared, ids: Fresh, r: Clock.Reading)
    : (out: Result<(Db, Receipt), StoreError>)
  {
    if !ValidQueuePlan(plan) || r.wall.None? then Err(InvalidInput)
    else if Operation(plan.operation) in db.keys then
      var id := db.keys[Operation(plan.operation)];
      if id !in db.messages || db.messages[id].blob !in db.blobs then Err(Database)
      else if !SameImport(db, id, plan, p) then Err(IdempotencyConflict)
      else Ok((db, Receipt(id, true)))
    else
      var db1 :- EnqueueNew(db, plan, p, ids, r.wall.value);
      Ok((db1, Receipt(ids.message, false)))
  }

  function Enqueue(db: Db, plan: QueuePlan, p: Prepared, ids: Fresh, r: Clock.Reading, fate: Fate)
    : (Db, Result<Receipt, StoreError>)
  {
    Settled(db, EnqueueTx(db, plan, p, ids, r), fate)
  }
}
