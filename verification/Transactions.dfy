/** Every transaction of the store keeps the whole database invariant and moves rows only as named. */
module Transactions {
  import opened Wrappers
  import opened Tables
  import opened Ordering
  import opened Moves
  import opened Growth
  import opened Reports
  import opened Ledger
  import Acceptance
  import Clock
  import Identity
  import Notification
  import Queue

  /** The cross-table invariant: what queue_integrity_mismatches and check_integrity look for, and more. */
  ghost predicate DbOk(db: Db) {
    RowsOk(db) && Linked(db) && ReportsOk(db) && LedgerOk(db)
  }

  /** Rows in the hands of an attempt are leased. */
  ghost predicate OwnedLeased(db: Db, owned: set<Id>) {
    forall id :: id in owned ==> id in db.deliveries && db.deliveries[id].state == Leased
  }

  /**
   * Time only adds: mail never changes, terminal states and reports stay, and what is stored about
   * an accepted message (its rows, blob and queue settings) is fixed for good.
   */
  ghost predicate Onward(db: Db, next: Db) {
    && (forall id :: id in db.deliveries ==> id in next.deliveries && RowOnward(db.deliveries[id], next.deliveries[id]))
    && (forall id :: id in next.deliveries && id !in db.deliveries ==> next.deliveries[id].message !in db.messages)
    && (forall id :: id in db.notifications ==>
        id in next.notifications && next.notifications[id] == db.notifications[id])
    && (forall m :: m in db.messages ==> m in next.messages && next.messages[m] == db.messages[m]
                                         && (m in next.queued <==> m in db.queued)
                                         && (m in db.queued ==> next.queued[m] == db.queued[m]))
    && (forall k :: k in db.keys ==> k in next.keys && next.keys[k] == db.keys[k])
    && (forall b :: b in db.blobs ==> b in next.blobs && next.blobs[b] == db.blobs[b])
  }

  predicate RowOnward(d: Delivery, e: Delivery) {
    SameMail(d, e) && (Terminal(d) ==> e.state == d.state && e.closedAt == d.closedAt)
  }

  lemma OnwardTransitive(a: Db, b: Db, c: Db)
    requires Onward(a, b) && Onward(b, c)
    ensures Onward(a, c)
  {
    forall id | id in a.deliveries ensures id in c.deliveries && RowOnward(a.deliveries[id], c.deliveries[id]) {
      assert RowOnward(a.deliveries[id], b.deliveries[id]) && RowOnward(b.deliveries[id], c.deliveries[id]);
    }
    forall id | id in c.deliveries && id !in a.deliveries ensures c.deliveries[id].message !in a.messages {
      if id in b.deliveries {
        assert RowOnward(b.deliveries[id], c.deliveries[id]);
      }
    }
  }

  lemma EvolvesRowsOnward(db: Db, next: Db, owned: set<Id>)
    requires RowsOk(db) && Evolves(db, next, owned)
    ensures forall id :: id in db.deliveries ==>
            id in next.deliveries && RowOnward(db.deliveries[id], next.deliveries[id])
    ensures forall id :: id in db.notifications ==>
            id in next.notifications && next.notifications[id] == db.notifications[id]
  {
    forall id | id in db.deliveries
      ensures id in next.deliveries && RowOnward(db.deliveries[id], next.deliveries[id])
              && (id in db.notifications ==> id in next.notifications && next.notifications[id] == db.notifications[id])
    {
      assert Still(ViewOf(db, id), ViewOf(next, id)) || FreeMove(ViewOf(db, id), ViewOf(next, id));
      MoveKeepsRow(ViewOf(db, id), ViewOf(next, id));
    }
  }

  /** One sound transaction. */
  ghost predicate Sound(db: Db, next: Db, owned: set<Id>) {
    Evolves(db, next, owned) && DbOk(next) && Onward(db, next)
  }

  lemma NothingHappens(db: Db, owned: set<Id>)
    requires DbOk(db)
    ensures Sound(db, db, owned)
  {
    forall id | id in db.deliveries ensures Still(ViewOf(db, id), ViewOf(db, id)) {
    }
  }

  /** The tables only the queue columns of existing rows belong to. */
  ghost predicate QueueOnly(db: Db, next: Db) {
    && next == db.(deliveries := next.deliveries, leases := next.leases, admin := next.admin)
    && next.deliveries.Keys == db.deliveries.Keys && next.leases.Keys <= db.deliveries.Keys
  }

  lemma QueueOnlyKeepsRest(db: Db, next: Db)
    requires DbOk(db) && QueueOnly(db, next) && RowsOk(next)
    requires forall id :: id in db.deliveries ==> SameMail(db.deliveries[id], next.deliveries[id])
    ensures DbOk(next)
  {
    SameMailKeepsLinks(db, next);
    ReportsUntouched(db, next);
    LedgerUntouched(db, next);
  }

  lemma QueueOnlySound(db: Db, next: Db, owned: set<Id>)
    requires DbOk(db) && QueueOnly(db, next) && Evolves(db, next, owned)
    ensures Sound(db, next, owned)
  {
    EvolvesKeepsRows(db, next, owned);
    EvolvesRowsOnward(db, next, owned);
    QueueOnlyKeepsRest(db, next);
  }

  // ---------------------------------------------------------------- queue

  /** Nothing or one sound transaction took effect. */
  lemma SoundAs(db: Db, next: Db, tx: Db, owned: set<Id>)
    requires DbOk(db) && (next == tx ==> Sound(db, tx, owned)) && (next == db || next == tx)
    ensures Sound(db, next, owned)
  {
    NothingHappens(db, owned);
  }

  lemma ExpireRowsSound(db: Db, rows: seq<Key>, now: int, owned: set<Id>)
    requires DbOk(db) && OwnedLeased(db, owned)
    requires forall k :: k in rows ==> k.id in db.deliveries && Queue.Waiting(db.deliveries[k.id])
    ensures Sound(db, Queue.ExpireRows(db, Ids(rows), now), owned)
  {
    ExpireEvolves(db, rows, now, owned);
    QueueOnlySound(db, Queue.ExpireRows(db, Ids(rows), now), owned);
  }

  /** What `queue_expire` writes. */
  lemma ExpireWrites(s: Queue.Store, limit: nat, r: Clock.Reading, fate: Fate) returns (rows: seq<Key>, now: int)
    ensures forall k :: k in rows ==> k.id in s.db.deliveries && Queue.Waiting(s.db.deliveries[k.id])
    ensures var s' := Queue.Expire(s, limit, r, fate).0;
            && s'.rt == s.rt.(clock := s'.rt.clock)
            && (s'.db == s.db || s'.db == Queue.ExpireRows(s.db, Ids(rows), now))
  {
    rows, now := [], 0;
    var time := Queue.Ticked(s, r).1;
    if 1 <= limit <= Queue.BATCH && time.Ok? {
      now := time.value;
      var keys := Queue.ExpiryKeys(s.db, now);
      rows := First(keys, limit);
      forall k | k in rows ensures k.id in s.db.deliveries && Queue.Waiting(s.db.deliveries[k.id]) {
        assert k in keys;
      }
    }
  }

  lemma ExpireSound(s: Queue.Store, limit: nat, r: Clock.Reading, fate: Fate, owned: set<Id>)
    requires DbOk(s.db) && OwnedLeased(s.db, owned)
    ensures Sound(s.db, Queue.Expire(s, limit, r, fate).0.db, owned)
    ensures var s' := Queue.Expire(s, limit, r, fate).0; s'.rt == s.rt.(clock := s'.rt.clock)
  {
    var rows, now := ExpireWrites(s, limit, r, fate);
    ExpireRowsSound(s.db, rows, now, owned);
    SoundAs(s.db, Queue.Expire(s, limit, r, fate).0.db, Queue.ExpireRows(s.db, Ids(rows), now), owned);
  }

  lemma GoneRows(s: Queue.Store, limit: nat, id: Id)
    requires id in Queue.Ownerless(s, limit)
    ensures id in s.db.deliveries && id in s.db.leases && id !in s.rt.active
    ensures s.db.deliveries[id].route == Relay && s.db.deliveries[id].state == Leased
  {
    var rows := Queue.RecoveryBatch(s, limit);
    var i :| 0 <= i < |rows| && rows[i].id == id;
    assert rows[i] in Queue.RecoveryKeys(s.db, s.rt.recoveryCursor);
  }

  lemma RecoverRowsSound(s: Queue.Store, limit: nat, next: int, owned: set<Id>)
    requires DbOk(s.db) && owned <= s.rt.active.Keys
    ensures Sound(s.db, Queue.RecoverRows(s.db, Queue.Ownerless(s, limit), next), owned)
  {
    var gone := Queue.Ownerless(s, limit);
    forall id | id in gone
      ensures id in s.db.deliveries && id in s.db.leases && id !in owned
              && s.db.deliveries[id].route == Relay && s.db.deliveries[id].state == Leased
    {
      GoneRows(s, limit, id);
    }
    RecoverEvolves(s.db, gone, next, owned);
    QueueOnlySound(s.db, Queue.RecoverRows(s.db, gone, next), owned);
  }

  lemma RecoverBatchMoves(s: Queue.Store, limit: nat, now: nat, fate: Fate)
    ensures var s' := Queue.RecoverBatch(s, limit, now, fate).0; s'.rt == s.rt.(recoveryCursor := s'.rt.recoveryCursor)
  {
  }

  lemma RecoverBatchWrites(s: Queue.Store, limit: nat, now: nat, fate: Fate)
    ensures var s' := Queue.RecoverBatch(s, limit, now, fate).0;
            s'.db == s.db || s'.db == Queue.RecoverRows(s.db, Queue.Ownerless(s, limit), now + Queue.RECOVERY_DELAY_MS)
  {
    var tx := Queue.RecoverRows(s.db, Queue.Ownerless(s, limit), now + Queue.RECOVERY_DELAY_MS);
    match fate {
      case Confirmed =>
      case AppliedUnknown =>
      case LostUnknown =>
    }
  }

  lemma RecoverBatchSound(s: Queue.Store, limit: nat, now: nat, fate: Fate, owned: set<Id>)
    requires DbOk(s.db) && owned <= s.rt.active.Keys
    ensures var s' := Queue.RecoverBatch(s, limit, now, fate).0;
            Sound(s.db, s'.db, owned) && s'.rt == s.rt.(recoveryCursor := s'.rt.recoveryCursor)
  {
    RecoverBatchMoves(s, limit, now, fate);
    RecoverBatchWrites(s, limit, now, fate);
    RecoverRowsSound(s, limit, now + Queue.RECOVERY_DELAY_MS, owned);
    SoundAs(s.db, Queue.RecoverBatch(s, limit, now, fate).0.db,
            Queue.RecoverRows(s.db, Queue.Ownerless(s, limit), now + Queue.RECOVERY_DELAY_MS), owned);
  }

  lemma RecoverSound(s: Queue.Store, limit: nat, live: set<nat>, r: Clock.Reading, fate: Fate, owned: set<Id>)
    requires DbOk(s.db) && owned <= Queue.Pruned(s, live).rt.active.Keys
    ensures var s' := Queue.Recover(s, limit, live, r, fate).0;
            && Sound(s.db, s'.db, owned)
            && (s' == s || s'.rt == Queue.Pruned(s, live).rt.(recoveryCursor := s'.rt.recoveryCursor))
  {
    NothingHappens(s.db, owned);
    if r.wall.Some? {
      RecoverBatchSound(Queue.Pruned(s, live), limit, r.wall.value, fate, owned);
    }
  }

  /** A scanned transaction is sound even if nobody learns of its leases. */
  lemma ScannedSound(base: Db, c: Queue.Claimed, ctx: Queue.Context, owned: set<Id>)
    requires DbOk(base) && Scanned(base, c, ctx) && owned <= ctx.active.Keys
    ensures Sound(base, c.tx, owned)
  {
    forall id | id in base.deliveries
      ensures Still(ViewOf(base, id), ViewOf(c.tx, id))
              || (id !in owned && FreeMove(ViewOf(base, id), ViewOf(c.tx, id)))
    {
    }
    QueueOnlySound(base, c.tx, owned);
  }

  lemma {:induction false} ConsentsGrow(admin: seq<AdminEvent>, e: AdminEvent, id: Id)
    ensures Consents(admin + [e], id)
            == Consents(admin, id) + if e.delivery == id && e.action == RetryAction && e.allowDuplicate then 1 else 0
  {
    assert (admin + [e])[..|admin|] == admin;
  }

  /** An administrator's change of one row with its event. */
  lemma LoggedElsewhere(db: Db, id: Id, d: Delivery, e: AdminEvent, x: Id)
    requires x in db.deliveries && x != id && e.delivery == id
    ensures var next := Queue.Log(Queue.Put(db, id, d), e); Still(ViewOf(db, x), ViewOf(next, x))
  {
    ConsentsGrow(db.admin, e, x);
  }

  lemma LoggedEvolves(db: Db, id: Id, d: Delivery, e: AdminEvent, owned: set<Id>)
    requires id in db.deliveries && id !in owned && e.delivery == id
    requires var next := Queue.Log(Queue.Put(db, id, d), e); FreeMove(ViewOf(db, id), ViewOf(next, id))
    ensures Evolves(db, Queue.Log(Queue.Put(db, id, d), e), owned)
  {
    var next := Queue.Log(Queue.Put(db, id, d), e);
    forall x | x in db.deliveries && x != id ensures Still(ViewOf(db, x), ViewOf(next, x)) {
      LoggedElsewhere(db, id, d, e, x);
    }
  }

  lemma LoggedSound(db: Db, id: Id, d: Delivery, e: AdminEvent, owned: set<Id>)
    requires DbOk(db) && id in db.deliveries && id !in owned && e.delivery == id
    requires var next := Queue.Log(Queue.Put(db, id, d), e); FreeMove(ViewOf(db, id), ViewOf(next, id))
    ensures Sound(db, Queue.Log(Queue.Put(db, id, d), e), owned)
  {
    LoggedEvolves(db, id, d, e, owned);
    QueueOnlySound(db, Queue.Log(Queue.Put(db, id, d), e), owned);
  }

  /** An administrator's action: nothing, or one logged move of a row nobody owns. */
  ghost predicate LoggedMove(db: Db, next: Db, id: Id, d: Delivery, e: AdminEvent) {
    || next == db
    || (&& id in db.deliveries && db.deliveries[id].state != Leased && e.delivery == id
        && next == Queue.Log(Queue.Put(db, id, d), e) && FreeMove(ViewOf(db, id), ViewOf(next, id)))
  }

  lemma LoggedMoveSound(db: Db, next: Db, id: Id, d: Delivery, e: AdminEvent, owned: set<Id>)
    requires DbOk(db) && OwnedLeased(db, owned) && LoggedMove(db, next, id, d, e)
    ensures Sound(db, next, owned)
  {
    if next == db {
      NothingHappens(db, owned);
    } else {
      LoggedSound(db, id, d, e, owned);
    }
  }

  lemma HoldWrites(s: Queue.Store, id: Id, r: Clock.Reading, fate: Fate) returns (row: Delivery, e: AdminEvent)
    ensures var s' := Queue.HoldRow(s, id, r, fate).0; s'.rt == s.rt && LoggedMove(s.db, s'.db, id, row, e)
  {
    row, e := *, *;
    if Queue.HoldRow(s, id, r, Confirmed).1.Ok? {
      var d := s.db.deliveries[id];
      row := d.(state := State.Hold, reason := Some(Manual),
                possiblyDelivered := d.possiblyDelivered || d.state == Uncertain);
      e := AdminEvent(id, HoldAction, d.state, State.Hold, false, false);
      ConsentsGrow(s.db.admin, e, id);
      assert Holds(ViewOf(s.db, id), ViewOf(Queue.Log(Queue.Put(s.db, id, row), e), id));
    }
  }

  lemma HoldSound(s: Queue.Store, id: Id, r: Clock.Reading, fate: Fate, owned: set<Id>)
    requires DbOk(s.db) && OwnedLeased(s.db, owned)
    ensures Sound(s.db, Queue.HoldRow(s, id, r, fate).0.db, owned) && Queue.HoldRow(s, id, r, fate).0.rt == s.rt
  {
    var row, e := HoldWrites(s, id, r, fate);
    LoggedMoveSound(s.db, Queue.HoldRow(s, id, r, fate).0.db, id, row, e, owned);
  }

  lemma RetryWrites(s: Queue.Store, id: Id, dup: bool, extend: bool, r: Clock.Reading, fate: Fate)
    returns (row: Delivery, e: AdminEvent)
    ensures var s' := Queue.Retry(s, id, dup, extend, r, fate).0;
            s'.rt == s.rt.(clock := s'.rt.clock) && LoggedMove(s.db, s'.db, id, row, e)
  {
    row, e := *, *;
    if Queue.Retry(s, id, dup, extend, r, Confirmed).1.Ok? {
      var now := Queue.Ticked(s, r).1.value;
      var d := s.db.deliveries[id];
      var expires := if d.expires <= now then Queue.Later(now, s.db.queued[d.message].maxAge * 1000).value
                     else d.expires;
      row := d.(state := Pending, nextAttempt := now, expires := expires, reason := None);
      e := AdminEvent(id, RetryAction, d.state, Pending, dup, extend);
      ConsentsGrow(s.db.admin, e, id);
      assert Retries(ViewOf(s.db, id), ViewOf(Queue.Log(Queue.Put(s.db, id, row), e), id));
    }
  }

  lemma RetrySound(s: Queue.Store, id: Id, dup: bool, extend: bool, r: Clock.Reading, fate: Fate, owned: set<Id>)
    requires DbOk(s.db) && OwnedLeased(s.db, owned)
    ensures Sound(s.db, Queue.Retry(s, id, dup, extend, r, fate).0.db, owned)
    ensures var s' := Queue.Retry(s, id, dup, extend, r, fate).0; s'.rt == s.rt.(clock := s'.rt.clock)
  {
    var row, e := RetryWrites(s, id, dup, extend, r, fate);
    LoggedMoveSound(s.db, Queue.Retry(s, id, dup, extend, r, fate).0.db, id, row, e, owned);
  }

  lemma CloseWrites(s: Queue.Store, id: Id, note: string, r: Clock.Reading, fate: Fate)
    returns (row: Delivery, e: AdminEvent)
    ensures var s' := Queue.CloseUnknown(s, id, note, r, fate).0; s'.rt == s.rt && LoggedMove(s.db, s'.db, id, row, e)
  {
    row, e := *, *;
    if Queue.CloseUnknown(s, id, note, r, fate).0.db != s.db {
      var d := s.db.deliveries[id];
      row := d.(state := Uncertain, closedAt := Some(r.wall.value));
      e := AdminEvent(id, CloseAction, d.state, Uncertain, false, false);
      ConsentsGrow(s.db.admin, e, id);
      assert Closes(ViewOf(s.db, id), ViewOf(Queue.Log(Queue.Put(s.db, id, row), e), id));
    }
  }

  lemma CloseSound(s: Queue.Store, id: Id, note: string, r: Clock.Reading, fate: Fate, owned: set<Id>)
    requires DbOk(s.db) && OwnedLeased(s.db, owned)
    ensures Sound(s.db, Queue.CloseUnknown(s, id, note, r, fate).0.db, owned)
    ensures Queue.CloseUnknown(s, id, note, r, fate).0.rt == s.rt
  {
    var row, e := CloseWrites(s, id, note, r, fate);
    LoggedMoveSound(s.db, Queue.CloseUnknown(s, id, note, r, fate).0.db, id, row, e, owned);
  }

  /** A change of one row that leaves its state, lease and flags alone. */
  lemma StillRowEvolves(db: Db, id: Id, d: Delivery, owned: set<Id>)
    requires id in db.deliveries && Still(ViewOf(db, id), ViewOf(Queue.Put(db, id, d), id))
    ensures Evolves(db, Queue.Put(db, id, d), owned)
  {
    var next := Queue.Put(db, id, d);
    forall x | x in db.deliveries && x != id ensures Still(ViewOf(db, x), ViewOf(next, x)) {
    }
  }

  lemma StillRowSound(db: Db, id: Id, d: Delivery, owned: set<Id>)
    requires DbOk(db) && id in db.deliveries && Still(ViewOf(db, id), ViewOf(Queue.Put(db, id, d), id))
    ensures Sound(db, Queue.Put(db, id, d), owned)
  {
    StillRowEvolves(db, id, d, owned);
    QueueOnlySound(db, Queue.Put(db, id, d), owned);
  }

  /** Nothing, or one row changed without a move. */
  ghost predicate StillPut(db: Db, next: Db, id: Id, d: Delivery) {
    next == db || (id in db.deliveries && next == Queue.Put(db, id, d) && Still(ViewOf(db, id), ViewOf(next, id)))
  }

  lemma StillPutSound(db: Db, next: Db, id: Id, d: Delivery, owned: set<Id>)
    requires DbOk(db) && StillPut(db, next, id, d)
    ensures Sound(db, next, owned)
  {
    if next == db {
      NothingHappens(db, owned);
    } else {
      StillRowSound(db, id, d, owned);
    }
  }

  lemma RenewWrites(s: Queue.Store, lease: Queue.Lease, seconds: nat, r: Clock.Reading, fate: Fate)
    returns (d: Delivery)
    requires lease.id in s.db.deliveries ==> RowOk(ViewOf(s.db, lease.id))
    ensures var s' := Queue.Renew(s, lease, seconds, r, fate).0;
            s'.rt == s.rt.(clock := s'.rt.clock) && StillPut(s.db, s'.db, lease.id, d)
  {
    d := *;
    if Queue.Renew(s, lease, seconds, r, Confirmed).1.Ok? {
      d := Queue.Renew(s, lease, seconds, r, Confirmed).0.db.deliveries[lease.id];
    }
  }

  lemma RenewSound(s: Queue.Store, lease: Queue.Lease, seconds: nat, r: Clock.Reading, fate: Fate, owned: set<Id>)
    requires DbOk(s.db)
    ensures Sound(s.db, Queue.Renew(s, lease, seconds, r, fate).0.db, owned)
    ensures var s' := Queue.Renew(s, lease, seconds, r, fate).0; s'.rt == s.rt.(clock := s'.rt.clock)
  {
    var d := RenewWrites(s, lease, seconds, r, fate);
    StillPutSound(s.db, Queue.Renew(s, lease, seconds, r, fate).0.db, lease.id, d, owned);
  }

  // ---------------------------------------------------------------- acceptance and reports

  lemma GrowthOnward(db: Db, next: Db, m: Id)
    requires Linked(db) && Grows(db, next, m)
    ensures Onward(db, next)
  {
    assert forall x :: x in db.messages ==> MessageOk(db, x);
  }

  lemma AcceptNewSound(db: Db, q: Acceptance.Request, p: Acceptance.Prepared, ids: Acceptance.Fresh, now: int,
                       owned: set<Id>)
    requires DbOk(db) && Acceptance.AcceptNew(db, q, p, ids, now).Ok?
    ensures Sound(db, Acceptance.AcceptNew(db, q, p, ids, now).value, owned)
  {
    var next := Acceptance.AcceptNew(db, q, p, ids, now).value;
    AcceptKeepsLedger(db, q, p, ids, now);
    AcceptNewGrows(db, q, p, ids, now);
    GrownSound(db, next, ids.message, owned);
  }

  /** A message that is no report was added. */
  lemma GrownSound(db: Db, next: Db, m: Id, owned: set<Id>)
    requires DbOk(db) && Grows(db, next, m) && MessageOk(next, m) && !next.messages[m].key.Report? && LedgerOk(next)
    ensures Sound(db, next, owned)
  {
    GrowthEvolves(db, next, m, owned);
    EvolvesKeepsRows(db, next, owned);
    GrowthKeepsLinks(db, next, m);
    GrowthKeepsReports(db, next, m);
    GrowthOnward(db, next, m);
  }

  lemma AcceptWrites(db: Db, q: Acceptance.Request, p: Acceptance.Prepared, ids: Acceptance.Fresh, r: Clock.Reading,
                     fate: Fate)
    ensures var next := Acceptance.Accept(db, q, p, ids, r, fate).0;
            || next == db
            || (r.wall.Some? && Acceptance.AcceptNew(db, q, p, ids, r.wall.value) == Ok(next))
  {
  }

  lemma AcceptSound(db: Db, q: Acceptance.Request, p: Acceptance.Prepared, ids: Acceptance.Fresh,
                    r: Clock.Reading, fate: Fate, owned: set<Id>)
    requires DbOk(db)
    ensures Sound(db, Acceptance.Accept(db, q, p, ids, r, fate).0, owned)
  {
    AcceptWrites(db, q, p, ids, r, fate);
    var next := Acceptance.Accept(db, q, p, ids, r, fate).0;
    if next == db {
      NothingHappens(db, owned);
    } else {
      AcceptNewSound(db, q, p, ids, r.wall.value, owned);
    }
  }

  lemma EnqueueNewSound(db: Db, plan: Acceptance.QueuePlan, p: Acceptance.Prepared, ids: Acceptance.Fresh, now: int,
                        owned: set<Id>)
    requires DbOk(db) && Acceptance.EnqueueNew(db, plan, p, ids, now).Ok?
    ensures Sound(db, Acceptance.EnqueueNew(db, plan, p, ids, now).value, owned)
  {
    EnqueueKeepsLedger(db, plan, p, ids, now);
    EnqueueNewGrows(db, plan, p, ids, now);
    GrownSound(db, Acceptance.EnqueueNew(db, plan, p, ids, now).value, ids.message, owned);
  }

  lemma EnqueueWrites(db: Db, plan: Acceptance.QueuePlan, p: Acceptance.Prepared, ids: Acceptance.Fresh,
                      r: Clock.Reading, fate: Fate)
    ensures var next := Acceptance.Enqueue(db, plan, p, ids, r, fate).0;
            || next == db
            || (r.wall.Some? && Acceptance.EnqueueNew(db, plan, p, ids, r.wall.value) == Ok(next))
  {
  }

  lemma EnqueueSound(db: Db, plan: Acceptance.QueuePlan, p: Acceptance.Prepared, ids: Acceptance.Fresh,
                     r: Clock.Reading, fate: Fate, owned: set<Id>)
    requires DbOk(db)
    ensures Sound(db, Acceptance.Enqueue(db, plan, p, ids, r, fate).0, owned)
  {
    EnqueueWrites(db, plan, p, ids, r, fate);
    var next := Acceptance.Enqueue(db, plan, p, ids, r, fate).0;
    if next == db {
      NothingHappens(db, owned);
    } else {
      EnqueueNewSound(db, plan, p, ids, r.wall.value, owned);
    }
  }

  lemma PostponeWrites(s: Queue.Store, id: Id, r: Clock.Reading) returns (d: Delivery)
    ensures var s' := Notification.Postpone(s, id, r).0;
            s'.rt == s.rt.(clock := s'.rt.clock) && StillPut(s.db, s'.db, id, d)
  {
    d := *;
    var next := Notification.Postpone(s, id, r).0.db;
    if next != s.db {
      d := next.deliveries[id];
    }
  }

  lemma PostponeSound(s: Queue.Store, id: Id, r: Clock.Reading, owned: set<Id>)
    requires DbOk(s.db)
    ensures Sound(s.db, Notification.Postpone(s, id, r).0.db, owned)
    ensures var s' := Notification.Postpone(s, id, r).0; s'.rt == s.rt.(clock := s'.rt.clock)
  {
    var d := PostponeWrites(s, id, r);
    StillPutSound(s.db, Notification.Postpone(s, id, r).0.db, id, d, owned);
  }

  /** A failure that is still to be reported. */
  predicate Unreported(d: Delivery) { d.state == State.Failed && d.route == Relay && d.notice == NotYet }

  lemma OfferWrites(s: Queue.Store, id: Id, plan: Result<Notification.Plan, StoreError>, again: Clock.Reading)
    returns (d: Delivery)
    requires id in s.db.deliveries && Unreported(s.db.deliveries[id]) && s.db.deliveries[id].message in s.db.messages
    ensures var s' := Notification.Offer(s, id, plan, again).0;
            s'.rt == s.rt.(clock := s'.rt.clock) && StillPut(s.db, s'.db, id, d)
  {
    if !Notification.Reportable(s.db.messages[s.db.deliveries[id].message]) {
      d := s.db.deliveries[id].(notice := Suppressed);
    } else {
      d := PostponeWrites(s, id, again);
    }
  }

  lemma OfferSound(s: Queue.Store, id: Id, plan: Result<Notification.Plan, StoreError>, again: Clock.Reading,
                   owned: set<Id>)
    requires DbOk(s.db) && id in s.db.deliveries && Unreported(s.db.deliveries[id])
    requires s.db.deliveries[id].message in s.db.messages
    ensures var s' := Notification.Offer(s, id, plan, again).0;
            Sound(s.db, s'.db, owned) && s'.rt == s.rt.(clock := s'.rt.clock)
  {
    var d := OfferWrites(s, id, plan, again);
    StillPutSound(s.db, Notification.Offer(s, id, plan, again).0.db, id, d, owned);
  }

  /** The next failure to look at, if any. */
  lemma NextIs(s: Queue.Store, p: Notification.Policy, report: Id, size: Option<nat>, staged: bool,
               r: Clock.Reading, again: Clock.Reading)
    returns (t: Queue.Store, id: Id, plan: Result<Notification.Plan, StoreError>)
    ensures t.db == s.db && t.rt == s.rt.(clock := t.rt.clock)
    ensures var s' := Notification.Next(s, p, report, size, staged, r, again).0;
            || (s'.db == s.db && s'.rt == s.rt.(clock := s'.rt.clock))
            || (id in t.db.deliveries && Unreported(t.db.deliveries[id]) && t.db.deliveries[id].message in t.db.messages
                && s' == Notification.Offer(t, id, plan, again).0)
  {
    var now := Queue.Ticked(s, r).1;
    t, id, plan := Queue.Ticked(s, r).0, 0, Err(NotFound);
    if Notification.ValidPolicy(p) && now.Ok? {
      var keys := Notification.DueKeys(t.db, now.value);
      var due := First(keys, 1);
      if due != [] {
        assert due[0] in keys;
        id := due[0].id;
        plan := Notification.PlanReport(t.db, id, p, report, size, staged);
      }
    }
  }

  lemma NextSound(s: Queue.Store, p: Notification.Policy, report: Id, size: Option<nat>, staged: bool,
                  r: Clock.Reading, again: Clock.Reading, owned: set<Id>)
    requires DbOk(s.db)
    ensures Sound(s.db, Notification.Next(s, p, report, size, staged, r, again).0.db, owned)
    ensures var s' := Notification.Next(s, p, report, size, staged, r, again).0; s'.rt == s.rt.(clock := s'.rt.clock)
  {
    var t, id, plan := NextIs(s, p, report, size, staged, r, again);
    if Notification.Next(s, p, report, size, staged, r, again).0.db == s.db {
      NothingHappens(s.db, owned);
    } else {
      OfferSound(t, id, plan, again, owned);
    }
    NextClock(s, p, report, size, staged, r, again, t, id, plan);
  }

  lemma NextClock(s: Queue.Store, p: Notification.Policy, report: Id, size: Option<nat>, staged: bool,
                  r: Clock.Reading, again: Clock.Reading, t: Queue.Store, id: Id,
                  plan: Result<Notification.Plan, StoreError>)
    requires t.db == s.db && t.rt == s.rt.(clock := t.rt.clock)
    requires var s' := Notification.Next(s, p, report, size, staged, r, again).0;
             || (s'.db == s.db && s'.rt == s.rt.(clock := s'.rt.clock))
             || (id in t.db.deliveries && Unreported(t.db.deliveries[id])
                 && t.db.deliveries[id].message in t.db.messages
                 && s' == Notification.Offer(t, id, plan, again).0)
    ensures var s' := Notification.Next(s, p, report, size, staged, r, again).0; s'.rt == s.rt.(clock := s'.rt.clock)
  {
    if id in t.db.deliveries && Unreported(t.db.deliveries[id]) && t.db.deliveries[id].message in t.db.messages {
      var d := OfferWrites(t, id, plan, again);
    }
  }

  lemma LinkingOnward(db: Db, mid: Db, plan: Notification.Plan)
    requires Onward(db, mid) && plan.delivery in mid.deliveries && plan.delivery !in mid.notifications
    ensures Onward(db, Linking(mid, plan))
  {
    var next := Linking(mid, plan);
    forall id | id in db.deliveries ensures id in next.deliveries && RowOnward(db.deliveries[id], next.deliveries[id]) {
      assert RowOnward(db.deliveries[id], mid.deliveries[id]);
    }
  }

  lemma CommittedOnward(db: Db, plan: Notification.Plan, p: Acceptance.Prepared, delivery: Id, now: int)
    requires Linked(db) && LedgerOk(db) && Notification.CommitNew(db, plan, p, delivery, now).Ok?
    ensures Onward(db, Notification.CommitNew(db, plan, p, delivery, now).value)
  {
    CommitSplits(db, plan, p, delivery, now);
    var mid := Reporting(db, plan, p, delivery, now).value;
    assert Onward(db, mid) by {
      ReportingGrows(db, plan, p, delivery, now);
      GrowthOnward(db, mid, plan.report);
    }
    LinkingOnward(db, mid, plan);
  }

  lemma CommitNewSound(db: Db, plan: Notification.Plan, p: Acceptance.Prepared, delivery: Id, now: int, owned: set<Id>)
    requires DbOk(db) && plan.delivery !in db.notifications && Notification.Eligible(db, plan)
    requires Notification.CommitNew(db, plan, p, delivery, now).Ok?
    ensures Sound(db, Notification.CommitNew(db, plan, p, delivery, now).value, owned)
  {
    var next := Notification.CommitNew(db, plan, p, delivery, now).value;
    CommitNewKeeps(db, plan, p, delivery, now, owned);
    EvolvesKeepsRows(db, next, owned);
    CommittedOnward(db, plan, p, delivery, now);
  }

  lemma CommitReportWrites(s: Queue.Store, plan: Notification.Plan, p: Acceptance.Prepared, delivery: Id,
                           r: Clock.Reading, fate: Fate)
    returns (now: int)
    ensures var s' := Notification.CommitReport(s, plan, p, delivery, r, fate).0;
            && s'.rt == s.rt.(clock := s'.rt.clock)
            && (|| s'.db == s.db
                || (plan.delivery !in s.db.notifications && Notification.Eligible(s.db, plan)
                    && Notification.CommitNew(s.db, plan, p, delivery, now) == Ok(s'.db)))
  {
    var time := Queue.Ticked(s, r).1;
    now := if time.Ok? then time.value else 0;
  }

  lemma CommitReportSound(s: Queue.Store, plan: Notification.Plan, p: Acceptance.Prepared, delivery: Id,
                          r: Clock.Reading, fate: Fate, owned: set<Id>)
    requires DbOk(s.db)
    ensures Sound(s.db, Notification.CommitReport(s, plan, p, delivery, r, fate).0.db, owned)
    ensures var s' := Notification.CommitReport(s, plan, p, delivery, r, fate).0; s'.rt == s.rt.(clock := s'.rt.clock)
  {
    var now := CommitReportWrites(s, plan, p, delivery, r, fate);
    if Notification.CommitReport(s, plan, p, delivery, r, fate).0.db == s.db {
      NothingHappens(s.db, owned);
    } else {
      CommitNewSound(s.db, plan, p, delivery, now, owned);
    }
  }

  // ---------------------------------------------------------------- accounts

  /** A change of accounts, addresses or credentials that keeps the ledger. */
  lemma AccountsSound(db: Db, next: Db, owned: set<Id>)
    requires DbOk(db) && LedgerOk(next)
    requires next == db.(accounts := next.accounts, addresses := next.addresses, credentials := next.credentials)
    ensures Sound(db, next, owned)
  {
    forall id | id in db.deliveries ensures Still(ViewOf(db, id), ViewOf(next, id)) {
    }
    EvolvesKeepsRows(db, next, owned);
    EvolvesRowsOnward(db, next, owned);
    SameMailKeepsLinks(db, next);
    ReportsUntouched(db, next);
  }

  datatype Change =
    | NewAccount(login: string, quota: nat) | NewQuota(login: string, bytes: nat)
    | NewCredential(login: string, selector: Id, scope: Scope) | Revoke(selector: Id)
    | Disable(login: string) | SendAs(login: string, address: string, enabled: bool)

  function Changed(db: Db, c: Change): (r: Result<Db, StoreError>) {
    match c
    case NewAccount(login, quota) => Identity.CreateAccount(db, login, quota)
    case NewQuota(login, bytes) => Identity.SetQuota(db, login, bytes)
    case NewCredential(login, selector, scope) => Identity.CreateCredential(db, login, selector, scope)
    case Revoke(selector) => Identity.RevokeCredential(db, selector)
    case Disable(login) => Identity.DisableAccount(db, login)
    case SendAs(login, address, enabled) => Identity.SetSendAs(db, login, address, enabled)
  }

  /** Sizes and counters of every account survive a change, and no quota falls below its use. */
  lemma ChangeLedger(db: Db, c: Change)
    requires Changed(db, c).Ok?
    requires forall login :: login in db.accounts ==> db.accounts[login].used <= db.accounts[login].quota <= I64_MAX
    ensures var next := Changed(db, c).value;
            && next == db.(accounts := next.accounts, addresses := next.addresses, credentials := next.credentials)
            && db.accounts.Keys <= next.accounts.Keys
            && (forall login :: login in db.accounts ==>
                  && next.accounts[login].used == db.accounts[login].used
                  && next.accounts[login].uidNext == db.accounts[login].uidNext
                  && next.accounts[login].eventSeq == db.accounts[login].eventSeq
                  && next.accounts[login].used <= next.accounts[login].quota <= I64_MAX)
            && (forall login :: login in next.accounts && login !in db.accounts ==>
                  next.accounts[login].used == 0 && next.accounts[login].uidNext == 1
                    && next.accounts[login].quota <= I64_MAX)
  {
  }

  lemma ChangeSound(db: Db, c: Change, owned: set<Id>)
    requires DbOk(db) && Changed(db, c).Ok?
    ensures Sound(db, Changed(db, c).value, owned)
  {
    assert forall login :: login in db.accounts ==> AccountOk(db, login);
    ChangeLedger(db, c);
    LedgerOfAccounts(db, Changed(db, c).value);
    AccountsSound(db, Changed(db, c).value, owned);
  }
}
