/** What the inserting transactions add: one new message with its rows, nothing else. */
module Growth {
  import opened Wrappers
  import opened Tables
  import opened Ordering
  import opened Addresses
  import opened Acceptance
  import opened Moves
  import LocalDelivery
  import Queue

  /** Rows of other messages, and every table the inserting loops do not write, stay as they are. */
  ghost predicate Adds(db: Db, next: Db, m: Id) {
    && next.blobs == db.blobs && next.messages == db.messages && next.keys == db.keys
    && next.queued == db.queued && next.leases == db.leases && next.notifications == db.notifications
    && next.admin == db.admin && next.addresses == db.addresses && next.credentials == db.credentials
    && db.deliveries.Keys <= next.deliveries.Keys
    && (forall id :: id in db.deliveries ==> next.deliveries[id] == db.deliveries[id])
    && (forall id :: id in next.deliveries && id !in db.deliveries ==> BornFor(next.deliveries[id], m))
  }

  predicate BornFor(d: Delivery, m: Id) {
    && d.message == m && d.token.None? && d.leaseUntil.None? && !d.possiblyDelivered && d.closedAt.None?
    && d.notice == NotYet && d.generation == 0 && d.attempts == 0 && d.lastCode.None? && d.reason.None?
    && d.state == (if d.route == Local then Delivered else Pending)
    && (d.route == Relay ==> IsAddress(d.recipient))
  }

  lemma InsertedRecipients(db: Db, id: Id, d: Delivery)
    requires InsertDelivery(db, id, d).Ok?
    ensures var next, m := InsertDelivery(db, id, d).value, d.message;
            && RecipientsOf(next, m, d.route) == RecipientsOf(db, m, d.route) + {d.recipient}
            && forall route :: route != d.route ==> RecipientsOf(next, m, route) == RecipientsOf(db, m, route)
  {
    var next, m := InsertDelivery(db, id, d).value, d.message;
    forall t | t in RecipientsOf(db, m, d.route) + {d.recipient} ensures t in RecipientsOf(next, m, d.route) {
      if t in RecipientsOf(db, m, d.route) {
        var x :| x in db.deliveries && db.deliveries[x].message == m && db.deliveries[x].route == d.route
                 && db.deliveries[x].recipient == t;
        assert x in next.deliveries && next.deliveries[x].recipient == t;
      } else {
        assert next.deliveries[id].recipient == t;
      }
    }
    forall route | route != d.route ensures RecipientsOf(next, m, route) == RecipientsOf(db, m, route) {
      forall t | t in RecipientsOf(db, m, route) ensures t in RecipientsOf(next, m, route) {
        var x :| x in db.deliveries && db.deliveries[x].message == m && db.deliveries[x].route == route
                 && db.deliveries[x].recipient == t;
        assert x in next.deliveries;
      }
    }
  }

  function AsSet(texts: seq<string>): set<string> { set t | t in texts }

  /** The recipients recorded for message `m` after adding `added` on `route`. */
  ghost predicate Recorded(db: Db, next: Db, m: Id, route: Route, added: set<string>) {
    && RecipientsOf(next, m, route) == RecipientsOf(db, m, route) + added
    && forall other :: other != route ==> RecipientsOf(next, m, other) == RecipientsOf(db, m, other)
  }

  lemma SameRecipients(db: Db, next: Db, m: Id)
    requires next.deliveries == db.deliveries
    ensures forall route :: RecipientsOf(next, m, route) == RecipientsOf(db, m, route)
  {
  }

  lemma InsertionRecords(db: Db, id: Id, d: Delivery)
    requires InsertDelivery(db, id, d).Ok?
    ensures Recorded(db, InsertDelivery(db, id, d).value, d.message, d.route, {d.recipient})
  {
    InsertedRecipients(db, id, d);
  }

  lemma RecordsChain(db: Db, one: Db, next: Db, m: Id, route: Route, texts: seq<string>)
    requires texts != [] && Recorded(db, one, m, route, {texts[0]})
    requires Recorded(one, next, m, route, AsSet(texts[1..]))
    ensures Recorded(db, next, m, route, AsSet(texts))
  {
    assert AsSet(texts) == {texts[0]} + AsSet(texts[1..]);
  }

  lemma {:induction false} DeliverAllAdds(db: Db, recipients: seq<string>, m: Id, size: nat, ids: seq<Id>, now: int)
    requires |ids| == |recipients| && LocalDelivery.DeliverAll(db, recipients, m, size, ids, now).Ok?
    ensures Adds(db, LocalDelivery.DeliverAll(db, recipients, m, size, ids, now).value, m)
    decreases |recipients|
  {
    if recipients != [] {
      var one := LocalDelivery.Deliver(db, recipients[0], m, size, ids[0], now).value;
      DeliverAllAdds(one, recipients[1..], m, size, ids[1..], now);
    }
  }

  lemma DeliverRecords(db: Db, recipient: string, m: Id, size: nat, id: Id, now: int)
    requires LocalDelivery.Deliver(db, recipient, m, size, id, now).Ok?
    ensures Recorded(db, LocalDelivery.Deliver(db, recipient, m, size, id, now).value, m, Local, {recipient})
  {
    var row := LocalDelivery.LocalRow(m, recipient, now);
    InsertionRecords(db, id, row);
    SameRecipients(InsertDelivery(db, id, row).value, LocalDelivery.Deliver(db, recipient, m, size, id, now).value, m);
  }

  lemma {:induction false} DeliverAllRecords(db: Db, recipients: seq<string>, m: Id, size: nat, ids: seq<Id>, now: int)
    requires |ids| == |recipients| && LocalDelivery.DeliverAll(db, recipients, m, size, ids, now).Ok?
    ensures Recorded(db, LocalDelivery.DeliverAll(db, recipients, m, size, ids, now).value, m, Local, AsSet(recipients))
    decreases |recipients|
  {
    if recipients == [] {
      assert AsSet(recipients) == {};
    } else {
      var one := LocalDelivery.Deliver(db, recipients[0], m, size, ids[0], now).value;
      DeliverRecords(db, recipients[0], m, size, ids[0], now);
      DeliverAllRecords(one, recipients[1..], m, size, ids[1..], now);
      RecordsChain(db, one, LocalDelivery.DeliverAll(db, recipients, m, size, ids, now).value, m, Local, recipients);
    }
  }

  lemma {:induction false} RelayRowsAdds(db: Db, m: Id, recipients: seq<string>, ids: seq<Id>, now: int, expires: int)
    requires |ids| == |recipients| && RelayRows(db, m, recipients, ids, now, expires).Ok?
    requires forall t :: t in recipients ==> IsAddress(t)
    ensures var next := RelayRows(db, m, recipients, ids, now, expires).value;
            Adds(db, next, m) && next.accounts == db.accounts && next.entries == db.entries
    decreases |recipients|
  {
    if recipients != [] {
      var one := InsertDelivery(db, ids[0], RelayRow(m, recipients[0], now, expires)).value;
      RelayRowsAdds(one, m, recipients[1..], ids[1..], now, expires);
    }
  }

  lemma {:induction false} RelayRowsRecord(db: Db, m: Id, recipients: seq<string>, ids: seq<Id>, now: int, expires: int)
    requires |ids| == |recipients| && RelayRows(db, m, recipients, ids, now, expires).Ok?
    ensures Recorded(db, RelayRows(db, m, recipients, ids, now, expires).value, m, Relay, AsSet(recipients))
    decreases |recipients|
  {
    if recipients == [] {
      assert AsSet(recipients) == {};
    } else {
      var row := RelayRow(m, recipients[0], now, expires);
      var one := InsertDelivery(db, ids[0], row).value;
      InsertionRecords(db, ids[0], row);
      RelayRowsRecord(one, m, recipients[1..], ids[1..], now, expires);
      RecordsChain(db, one, RelayRows(db, m, recipients, ids, now, expires).value, m, Relay, recipients);
    }
  }

  // ---------------------------------------------------------------- references between tables

  /** References hold, the unique key index is exact, and every stored address reads back as itself. */
  ghost predicate Linked(db: Db) {
    && (forall m :: m in db.messages ==> MessageOk(db, m))
    && (forall k :: k in db.keys ==> db.keys[k] in db.messages && db.messages[db.keys[k]].key == k)
    && db.queued.Keys <= db.messages.Keys
    && (forall id :: id in db.deliveries ==> DeliveryOk(db, db.deliveries[id]))
  }

  predicate MessageOk(db: Db, m: Id)
    requires m in db.messages
  {
    var msg := db.messages[m];
    && msg.blob in db.blobs
    && msg.key in db.keys && db.keys[msg.key] == m
    && (msg.sender == "" || IsAddress(msg.sender))
    && (msg.source == Dsn <==> msg.key.Report?)
    && (msg.source == Submission <==> msg.account.Some?)
    && (msg.source == Import ==> m in db.queued)
    && (m in db.queued ==> msg.source != Smtp)
  }

  predicate DeliveryOk(db: Db, d: Delivery) {
    && d.message in db.messages
    && (d.route == Relay ==> d.message in db.queued && IsAddress(d.recipient))
  }

  /** One message `m` was added with its blob, key, queue row and deliveries. */
  ghost predicate Grows(db: Db, next: Db, m: Id) {
    && m !in db.messages && m in next.messages
    && next.messages[m].blob !in db.blobs && next.messages[m].blob in next.blobs
    && next.messages[m].key !in db.keys
    && next.messages == db.messages[m := next.messages[m]]
    && next.blobs == db.blobs[next.messages[m].blob := next.blobs[next.messages[m].blob]]
    && next.keys == db.keys[next.messages[m].key := m]
    && (next.queued == db.queued || (m in next.queued && next.queued == db.queued[m := next.queued[m]]))
    && next.leases == db.leases && next.notifications == db.notifications && next.admin == db.admin
    && next.addresses == db.addresses && next.credentials == db.credentials
    && db.deliveries.Keys <= next.deliveries.Keys
    && (forall id :: id in db.deliveries ==> next.deliveries[id] == db.deliveries[id])
    && (forall id :: id in next.deliveries && id !in db.deliveries ==>
          BornFor(next.deliveries[id], m) && (next.deliveries[id].route == Relay ==> m in next.queued))
  }

  lemma GrowthKeepsLinks(db: Db, next: Db, m: Id)
    requires Linked(db) && Grows(db, next, m) && MessageOk(next, m)
    ensures Linked(next)
  {
    forall x | x in next.messages ensures MessageOk(next, x) {
      if x != m {
        assert MessageOk(db, x);
      }
    }
    forall id | id in next.deliveries ensures DeliveryOk(next, next.deliveries[id]) {
      if id in db.deliveries {
        assert DeliveryOk(db, db.deliveries[id]);
      }
    }
  }

  lemma GrowthEvolves(db: Db, next: Db, m: Id, owned: set<Id>)
    requires Grows(db, next, m) && Attached(db) && Linked(db)
    ensures Evolves(db, next, owned) && Attached(next)
  {
    forall id | id in db.deliveries ensures Still(ViewOf(db, id), ViewOf(next, id)) {
      assert DeliveryOk(db, db.deliveries[id]);
    }
    forall id | id in next.deliveries && id !in db.deliveries ensures Newborn(ViewOf(next, id)) {
    }
  }

  lemma NoRowsYet(db: Db, m: Id)
    requires Linked(db) && m !in db.messages
    ensures forall route :: RecipientsOf(db, m, route) == {}
    ensures m !in db.queued
  {
  }

  lemma OrderedTexts(texts: set<string>)
    ensures AsSet(InOrder(texts)) == texts
  {
  }

  /** The rows `insert_relay` adds. */
  lemma InsertRelayAdds(db: Db, m: Id, recipients: set<string>, meta: QueueMeta, ids: seq<Id>, now: int)
    requires |ids| == |recipients| && InsertRelay(db, m, recipients, meta, ids, now).Ok?
    requires forall t :: t in recipients ==> IsAddress(t)
    ensures var next := InsertRelay(db, m, recipients, meta, ids, now).value;
            && m !in db.queued && Adds(db.(queued := db.queued[m := meta]), next, m)
            && next.accounts == db.accounts && next.entries == db.entries
            && Recorded(db, next, m, Relay, recipients)
  {
    var queued := db.(queued := db.queued[m := meta]);
    OrderedTexts(recipients);
    var expires := Queue.Later(now, meta.maxAge * 1000).value;
    RelayRowsAdds(queued, m, InOrder(recipients), ids, now, expires);
    RelayRowsRecord(queued, m, InOrder(recipients), ids, now, expires);
    SameRecipients(db, queued, m);
  }

  // ---------------------------------------------------------------- the three inserting transactions

  /** Blob and message row of a new message. */
  function Headed(db: Db, m: Id, msg: Message, blob: Blob): (r: Result<Db, StoreError>) {
    var db1 :- InsertBlob(db, msg.blob, blob);
    InsertMessage(db1, m, msg)
  }

  lemma HeadedGrows(db: Db, m: Id, msg: Message, blob: Blob)
    requires Linked(db) && Headed(db, m, msg, blob).Ok?
    ensures var next := Headed(db, m, msg, blob).value;
            && Grows(db, next, m) && m !in db.queued && next.queued == db.queued && next.messages[m] == msg
            && next.blobs[msg.blob] == blob && next.accounts == db.accounts && next.entries == db.entries
            && RecipientsOf(next, m, Local) == {} && RecipientsOf(next, m, Relay) == {}
  {
    NoRowsYet(db, m);
    SameRecipients(db, Headed(db, m, msg, blob).value, m);
  }

  lemma AddingGrows(db: Db, mid: Db, next: Db, m: Id)
    requires Grows(db, mid, m) && Adds(mid, next, m)
    requires forall id :: id in next.deliveries && id !in mid.deliveries && next.deliveries[id].route == Relay
                          ==> m in mid.queued
    ensures Grows(db, next, m) && next.queued == mid.queued && next.messages == mid.messages && next.blobs == mid.blobs
  {
  }

  lemma QueueingGrows(db: Db, mid: Db, m: Id, meta: QueueMeta)
    requires Grows(db, mid, m) && m !in db.queued && mid.queued == db.queued
    ensures Grows(db, mid.(queued := mid.queued[m := meta]), m)
  {
  }

  /** The message row of an accepted request. */
  function NewMessage(q: Request, p: Prepared): Message {
    Message(Operation(q.plan.operation), p.id, if q.Plain? then Smtp else Submission,
            SenderText(q.plan.sender), AccountOf(q))
  }

  /** `AcceptNew` up to the local deliveries. */
  function Delivering(db: Db, q: Request, p: Prepared, ids: Fresh, now: int): (r: Result<Db, StoreError>) {
    var db2 :- Headed(db, ids.message, NewMessage(q, p), Blob(p.size, p.hash));
    LocalDelivery.DeliverAll(db2, InOrder(LocalKeys(q.plan.recipients)), ids.message, p.size,
                             Supply(ids.local, |LocalKeys(q.plan.recipients)|), now)
  }

  lemma {:induction false} DeliveredLocally(db: Db, recipients: seq<string>, m: Id, size: nat, ids: seq<Id>, now: int,
                                            id: Id)
    requires |ids| == |recipients| && LocalDelivery.DeliverAll(db, recipients, m, size, ids, now).Ok?
    requires var next := LocalDelivery.DeliverAll(db, recipients, m, size, ids, now).value;
             id in next.deliveries && id !in db.deliveries
    ensures LocalDelivery.DeliverAll(db, recipients, m, size, ids, now).value.deliveries[id].route == Local
    decreases |recipients|
  {
    var one := LocalDelivery.Deliver(db, recipients[0], m, size, ids[0], now).value;
    if id in one.deliveries {
      DeliverAllAdds(one, recipients[1..], m, size, ids[1..], now);
    } else {
      DeliveredLocally(one, recipients[1..], m, size, ids[1..], now, id);
    }
  }

  lemma DeliveringGrows(db: Db, q: Request, p: Prepared, ids: Fresh, now: int)
    requires Linked(db) && Delivering(db, q, p, ids, now).Ok?
    ensures var next := Delivering(db, q, p, ids, now).value;
            && Grows(db, next, ids.message) && next.queued == db.queued && ids.message !in db.queued
            && next.messages[ids.message] == NewMessage(q, p) && next.blobs[p.id] == Blob(p.size, p.hash)
            && RecipientsOf(next, ids.message, Local) == LocalKeys(q.plan.recipients)
            && RecipientsOf(next, ids.message, Relay) == {}
  {
    var m := ids.message;
    HeadedGrows(db, m, NewMessage(q, p), Blob(p.size, p.hash));
    var mid := Headed(db, m, NewMessage(q, p), Blob(p.size, p.hash)).value;
    var local := LocalKeys(q.plan.recipients);
    var rows, supply := InOrder(local), Supply(ids.local, |local|);
    DeliverAllAdds(mid, rows, m, p.size, supply, now);
    DeliverAllRecords(mid, rows, m, p.size, supply, now);
    OrderedTexts(local);
    var next := Delivering(db, q, p, ids, now).value;
    forall id | id in next.deliveries && id !in mid.deliveries ensures next.deliveries[id].route == Local {
      DeliveredLocally(mid, rows, m, p.size, supply, now, id);
    }
    AddingGrows(db, mid, next, m);
  }

  lemma AcceptNewSplits(db: Db, q: Request, p: Prepared, ids: Fresh, now: int)
    ensures AcceptNew(db, q, p, ids, now)
            == var mid := Delivering(db, q, p, ids, now);
               if mid.Err? then mid
               else if q.Relayed? then InsertRelay(mid.value, ids.message, RemoteOf(q), MetaOf(q).value,
                                                   Supply(ids.relay, |RemoteOf(q)|), now)
               else mid
  {
  }

  /** Queueing a message that grew without relay rows so far. */
  lemma RelayingGrows(db: Db, mid: Db, m: Id, recipients: set<string>, meta: QueueMeta, ids: seq<Id>, now: int)
    requires Grows(db, mid, m) && m !in db.queued && mid.queued == db.queued
    requires |ids| == |recipients| && InsertRelay(mid, m, recipients, meta, ids, now).Ok?
    requires forall t :: t in recipients ==> IsAddress(t)
    ensures var next := InsertRelay(mid, m, recipients, meta, ids, now).value;
            && Grows(db, next, m) && next.queued == db.queued[m := meta]
            && next.messages == mid.messages && next.blobs == mid.blobs
            && next.accounts == mid.accounts && next.entries == mid.entries
            && Recorded(mid, next, m, Relay, recipients)
  {
    InsertRelayAdds(mid, m, recipients, meta, ids, now);
    QueueingGrows(db, mid, m, meta);
    AddingGrows(db, mid.(queued := mid.queued[m := meta]), InsertRelay(mid, m, recipients, meta, ids, now).value, m);
  }

  /** What is stored of a message, from its parts. */
  lemma StoredParts(db: Db, m: Id, local: set<string>, remote: set<string>, meta: Option<QueueMeta>, blob: Blob)
    requires m in db.messages && db.messages[m].blob in db.blobs && db.blobs[db.messages[m].blob] == blob
    requires RecipientsOf(db, m, Local) == local && RecipientsOf(db, m, Relay) == remote
    requires meta == if m in db.queued then Some(db.queued[m]) else None
    ensures Stored(db, m) == Terms(db.messages[m].sender, blob.hash, blob.size, local, remote, meta,
                                   db.messages[m].account)
  {
  }

  /** Accepting adds exactly the message that was asked for. */
  lemma AcceptNewGrows(db: Db, q: Request, p: Prepared, ids: Fresh, now: int)
    requires Linked(db) && AcceptNew(db, q, p, ids, now).Ok?
    ensures var next := AcceptNew(db, q, p, ids, now).value;
            && Grows(db, next, ids.message) && MessageOk(next, ids.message)
            && next.messages[ids.message] == NewMessage(q, p)
            && Stored(next, ids.message) == Asked(q, p)
  {
    var m := ids.message;
    var next := AcceptNew(db, q, p, ids, now).value;
    AcceptNewSplits(db, q, p, ids, now);
    DeliveringGrows(db, q, p, ids, now);
    var mid := Delivering(db, q, p, ids, now).value;
    if q.Relayed? {
      RelayingGrows(db, mid, m, RemoteOf(q), MetaOf(q).value, Supply(ids.relay, |RemoteOf(q)|), now);
      RecordedFrom(mid, next, m, Relay, RemoteOf(q));
    }
    StoredParts(next, m, LocalKeys(q.plan.recipients), RemoteOf(q), MetaOf(q), Blob(p.size, p.hash));
  }

  lemma RecordedFrom(mid: Db, next: Db, m: Id, route: Route, added: set<string>)
    requires Recorded(mid, next, m, route, added) && RecipientsOf(mid, m, route) == {}
    ensures RecipientsOf(next, m, route) == added
    ensures forall other :: other != route ==> RecipientsOf(next, m, other) == RecipientsOf(mid, m, other)
  {
  }

  lemma EnqueueNewGrows(db: Db, plan: QueuePlan, p: Prepared, ids: Fresh, now: int)
    requires Linked(db) && EnqueueNew(db, plan, p, ids, now).Ok?
    ensures var next := EnqueueNew(db, plan, p, ids, now).value;
            && Grows(db, next, ids.message) && MessageOk(next, ids.message)
            && next.messages[ids.message].source == Import
            && next.messages[ids.message].key == Operation(plan.operation)
            && next.accounts == db.accounts && next.entries == db.entries
            && Stored(next, ids.message) == Enqueued(plan, p)
  {
    var m, msg := ids.message, Message(Operation(plan.operation), p.id, Import, SenderText(plan.sender), None);
    var remote, meta := Texts(plan.recipients), QueueMeta(plan.body, plan.maxAge);
    HeadedGrows(db, m, msg, Blob(p.size, p.hash));
    var head := Headed(db, m, msg, Blob(p.size, p.hash)).value;
    RelayingGrows(db, head, m, remote, meta, Supply(ids.relay, |remote|), now);
    var next := EnqueueNew(db, plan, p, ids, now).value;
    RecordedFrom(head, next, m, Relay, remote);
    StoredParts(next, m, {}, remote, Some(meta), Blob(p.size, p.hash));
  }
}
