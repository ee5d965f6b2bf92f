/** The database of the mail store (crates/store/schema.sql): tables as maps, rows as values. */
module Tables {
  import opened Wrappers

  /** A UUID printed as 32 hex digits. */
  type Id = nat

  const I64_MAX := 0x7fff_ffff_ffff_ffff
  const U32_MAX := 0xffff_ffff

  datatype StoreError =
    | InvalidInput | NotFound | PermissionDenied | StaleLease | ClockChanged | Integrity
    | IdempotencyConflict | RecipientUnavailable | Quota | UidExhausted | SizeLimit
    | DiskReserve | Database | OutcomeUnknown

  /** How a COMMIT ends: reported, or with an error that leaves the caller in doubt. */
  datatype Fate = Confirmed | AppliedUnknown | LostUnknown

  datatype BodyMode = SevenBit | EightBitMime
  datatype Source = Smtp | Submission | Dsn | Import
  datatype Route = Local | Relay
  datatype State = Pending | Leased | Deferred | Uncertain | Delivered | Failed | Hold
  datatype Reason = SmtpPermanent | Expired | Content | Counter | Manual
  datatype Notice = NotYet | Created | Suppressed
  datatype Phase = Ready | Body
  datatype Scope = MailScope | ReadOnly

  /** ingest_key: 32 hex digits for an accepted operation, "dsn:" + delivery id for a report. */
  datatype IngestKey = Operation(op: Id) | Report(delivery: Id)

  datatype Blob = Blob(size: nat, hash: string)
  datatype Message = Message(key: IngestKey, blob: Id, source: Source, sender: string, account: Option<string>)
  datatype QueueMeta = QueueMeta(body: BodyMode, maxAge: nat)

  datatype Delivery = Delivery(
    message: Id, recipient: string, route: Route, state: State,
    attempts: nat, generation: nat, nextAttempt: int, expires: int,
    token: Option<Id>, leaseUntil: Option<int>, lastCode: Option<int>, reason: Option<Reason>,
    possiblyDelivered: bool, closedAt: Option<int>, notice: Notice, noticeDue: int)

  datatype AdminAction = HoldAction | RetryAction | CloseAction
  datatype AdminEvent = AdminEvent(delivery: Id, action: AdminAction, before: State, after: State,
                                   allowDuplicate: bool, extendExpired: bool)

  /** The account row together with the counters of its INBOX. */
  datatype Account = Account(active: bool, quota: nat, used: nat, epoch: nat, uidNext: nat, eventSeq: nat)
  datatype AddressRow = AddressRow(account: string, receive: bool, send: bool)
  datatype Credential = Credential(account: string, scope: Scope, revoked: bool)
  /** A mailbox row together with its append event. */
  datatype Entry = Entry(account: string, uid: nat, event: nat, message: Id, delivery: Id)

  datatype Db = Db(
    blobs: map<Id, Blob>,
    messages: map<Id, Message>,
    keys: map<IngestKey, Id>,              // the unique index on message.ingest_key
    queued: map<Id, QueueMeta>,            // queue_message
    deliveries: map<Id, Delivery>,
    leases: map<Id, Phase>,                // queue_lease
    notifications: map<Id, Id>,            // delivery -> report message
    admin: seq<AdminEvent>,                // queue_admin_event
    accounts: map<string, Account>,        // by unique login
    addresses: map<string, AddressRow>,
    credentials: map<Id, Credential>,      // by unique selector
    entries: seq<Entry>)                   // mailbox_message and mailbox_event, never deleted

  const EMPTY := Db(map[], map[], map[], map[], map[], map[], map[], [], map[], map[], map[], [])

  /** What is left in the database by a commit with the given fate. */
  function Settle(old_: Db, new_: Db, fate: Fate): Db {
    if fate.LostUnknown? then old_ else new_
  }

  function InsertBlob(db: Db, id: Id, blob: Blob): (r: Result<Db, StoreError>) {
    if id in db.blobs then Err(Database) else Ok(db.(blobs := db.blobs[id := blob]))
  }

  function InsertMessage(db: Db, id: Id, m: Message): (r: Result<Db, StoreError>) {
    if id in db.messages || m.key in db.keys || m.blob !in db.blobs then Err(Database)
    else Ok(db.(messages := db.messages[id := m], keys := db.keys[m.key := id]))
  }

  /** Primary key, UNIQUE (message_id, recipient) and the reference to the message row. */
  function InsertDelivery(db: Db, id: Id, d: Delivery): (r: Result<Db, StoreError>) {
    if || id in db.deliveries || d.message !in db.messages
       || (exists x :: x in db.deliveries && db.deliveries[x].message == d.message
                       && db.deliveries[x].recipient == d.recipient)
    then Err(Database)
    else Ok(db.(deliveries := db.deliveries[id := d]))
  }

  function RecipientsOf(db: Db, message: Id, route: Route): set<string> {
    set id | id in db.deliveries && db.deliveries[id].message == message && db.deliveries[id].route == route
      :: db.deliveries[id].recipient
  }
}
