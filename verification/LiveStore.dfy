/**
 * The store as the object it is: one database, the owners in memory, two scan cursors and the clock
 * guard, changed in place (crates/store/src/queue.rs). Every method does what its function specifies.
 */
module LiveStore {
  import opened Wrappers
  import opened Tables
  import opened Ordering
  import Acceptance
  import Addresses
  import Clock
  import LocalDelivery
  import Notification
  import Queue
  import Reports

  // ---------------------------------------------------------------- the loops' effects, row by row

  lemma IdsStep(rows: seq<Key>, i: nat)
    requires i < |rows|
    ensures Ids(rows[..i + 1]) == Ids(rows[..i]) + {rows[i].id}
  {
    assert rows[..i + 1] == rows[..i] + [rows[i]];
  }

  lemma ExpireStep(db: Db, rows: seq<Key>, i: nat, now: int)
    requires i < |rows| && rows[i].id in db.deliveries && rows[i].id !in Ids(rows[..i])
    ensures var before := Queue.ExpireRows(db, Ids(rows[..i]), now);
            && rows[i].id in before.deliveries
            && Queue.ExpireRows(db, Ids(rows[..i + 1]), now)
               == Queue.Put(before, rows[i].id, Queue.ExpiredRow(before.deliveries[rows[i].id], now))
  {
    IdsStep(rows, i);
    var before := Queue.ExpireRows(db, Ids(rows[..i]), now);
    var after := Queue.ExpireRows(db, Ids(rows[..i + 1]), now);
    assert after.deliveries
           == before.deliveries[rows[i].id := Queue.ExpiredRow(before.deliveries[rows[i].id], now)];
  }

  /** The two statements of the recovery loop. */
  function RecoverOne(tx: Db, id: Id, next: int): Db {
    if id !in tx.deliveries || id !in tx.leases then tx
    else Queue.Put(tx, id, Queue.RecoveredRow(tx.deliveries[id], tx.leases[id], next)).(leases := tx.leases - {id})
  }

  lemma RecoverStep(db: Db, gone: set<Id>, id: Id, next: int)
    requires id in db.deliveries && id in db.leases && id !in gone
    ensures var before := Queue.RecoverRows(db, gone, next);
            && id in before.deliveries && id in before.leases
            && Queue.RecoverRows(db, gone + {id}, next) == RecoverOne(before, id, next)
  {
    var before, after := Queue.RecoverRows(db, gone, next), Queue.RecoverRows(db, gone + {id}, next);
    assert after.deliveries
           == before.deliveries[id := Queue.RecoveredRow(before.deliveries[id], before.leases[id], next)];
    assert after.leases == before.leases - {id};
  }

  lemma NothingRecovered(db: Db, next: int)
    ensures Queue.RecoverRows(db, {}, next) == db
  {
  }

  /** Rows of a batch are distinct and present. */
  lemma BatchRows(keys: set<Key>, rows: seq<Key>, limit: nat)
    requires rows == First(keys, limit) && forall k, l :: k in keys && l in keys && k.id == l.id ==> k == l
    ensures forall i :: 0 <= i < |rows| ==> rows[i] in keys && rows[i].id !in Ids(rows[..i])
  {
    forall i | 0 <= i < |rows| ensures rows[i] in keys && rows[i].id !in Ids(rows[..i]) {
      forall j | 0 <= j < i ensures rows[..i][j].id != rows[i].id {
        assert Before(rows[j], rows[i]) && rows[j] in keys && rows[i] in keys;
      }
    }
  }

  function Get(domains: map<string, nat>, domain: string): nat { if domain in domains then domains[domain] else 0 }

  function Bump(domains: map<string, nat>, domain: string): map<string, nat> {
    domains[domain := Get(domains, domain) + 1]
  }

  /** The owners among `some` that hold a slot of the domain. */
  function HoldersIn(active: map<Id, Queue.Guard>, live: set<nat>, some: set<Id>, domain: string): set<Id> {
    set id | id in some && id in Queue.Holders(active, live, domain)
  }

  lemma HoldersStep(active: map<Id, Queue.Guard>, live: set<nat>, some: set<Id>, id: Id, domain: string)
    requires id in active && id !in some
    ensures |HoldersIn(active, live, some + {id}, domain)|
            == |HoldersIn(active, live, some, domain)|
               + if active[id].serial in live && active[id].domain == domain then 1 else 0
  {
    var before, after := HoldersIn(active, live, some, domain), HoldersIn(active, live, some + {id}, domain);
    if active[id].serial in live && active[id].domain == domain {
      assert after == before + {id};
    } else {
      assert after == before;
    }
  }

  lemma HoldersAll(active: map<Id, Queue.Guard>, live: set<nat>, domain: string)
    ensures HoldersIn(active, live, active.Keys, domain) == Queue.Holders(active, live, domain)
  {
  }

  lemma LeasesForStep(leases: seq<Queue.Lease>, l: Queue.Lease, domain: string)
    ensures Queue.LeasesFor(leases + [l], domain)
            == Queue.LeasesFor(leases, domain) + if l.domain == domain then 1 else 0
  {
    assert (leases + [l])[..|leases|] == leases;
  }

  /** The admission counters agree with the owners and the leases of this claim. */
  ghost predicate Counts(domains: map<string, nat>, leases: seq<Queue.Lease>, ctx: Queue.Context) {
    forall domain :: Get(domains, domain) == Queue.Load(ctx.active, ctx.live, domain) + Queue.LeasesFor(leases, domain)
  }

  lemma CountsStep(domains: map<string, nat>, leases: seq<Queue.Lease>, l: Queue.Lease, ctx: Queue.Context)
    requires Counts(domains, leases, ctx)
    ensures Counts(Bump(domains, l.domain), leases + [l], ctx)
  {
    forall domain
      ensures Get(Bump(domains, l.domain), domain)
              == Queue.Load(ctx.active, ctx.live, domain) + Queue.LeasesFor(leases + [l], domain)
    {
      LeasesForStep(leases, l, domain);
    }
  }

  // ---------------------------------------------------------------- the object

  class Store {
    var db: Db
    var active: map<Id, Queue.Guard>
    var readyCursor: Option<Key>
    var recoveryCursor: int
    var base: Option<(nat, nat)>
    var lastWall: Option<nat>
    var clockChanged: bool
    const lock: nat

    ghost function View(): Queue.Store
      reads this
    {
      Queue.Store(db, Queue.Runtime(active, readyCursor, recoveryCursor, Clock.Guard(base, lastWall, clockChanged),
                                    lock))
    }

    constructor (db: Db, lock: nat)
      ensures View() == Queue.Reopened(db, lock)
    {
      this.db, this.lock := db, lock;
      active, readyCursor, recoveryCursor := map[], None, -1;
      base, lastWall, clockChanged := None, None, false;
    }

    /** QueueRuntime::now. */
    method Now(r: Clock.Reading) returns (t: Result<nat, StoreError>)
      modifies this
      ensures (View(), t) == Queue.Ticked(old(View()), r)
    {
      if r.wall.None? {
        return Err(InvalidInput);
      }
      var wall := r.wall.value;
      if base.Some? {
        var skew := (wall - base.value.0) - (r.mono - base.value.1);
        if (lastWall.Some? && wall < lastWall.value) || r.mono < base.value.1 || skew > 60_000 || skew < -60_000 {
          clockChanged := true;
        }
      } else {
        base := Some((wall, r.mono));
      }
      if clockChanged {
        return Err(ClockChanged);
      }
      lastWall := Some(wall);
      return Ok(wall);
    }

    method Commit(tx: Db, fate: Fate) returns (ok: bool)
      modifies this`db
      ensures db == Settle(old(db), tx, fate) && ok == fate.Confirmed?
    {
      if fate != LostUnknown {
        db := tx;
      }
      return fate == Confirmed;
    }

    method QueueExpire(limit: nat, r: Clock.Reading, fate: Fate) returns (n: Result<nat, StoreError>)
      modifies this
      ensures (View(), n) == Queue.Expire(old(View()), limit, r, fate)
    {
      if !(1 <= limit <= Queue.BATCH) {
        return Err(InvalidInput);
      }
      var now := Now(r);
      if now.Err? {
        return Err(now.error);
      }
      var keys := Queue.ExpiryKeys(db, now.value);
      var rows := First(keys, limit);
      BatchRows(keys, rows, limit);
      var tx := db;
      ghost var was := View();
      assert Queue.ExpireRows(db, Ids(rows[..0]), now.value).deliveries == db.deliveries;
      for i := 0 to |rows|
        invariant View() == was && tx == Queue.ExpireRows(db, Ids(rows[..i]), now.value)
      {
        var id := rows[i].id;
        assert rows[i] in keys;
        ExpireStep(db, rows, i, now.value);
        tx := Queue.Put(tx, id, Queue.ExpiredRow(tx.deliveries[id], now.value));
      }
      assert rows[..|rows|] == rows;
      if rows != [] {
        var ok := Commit(tx, fate);
        if !ok {
          return Err(OutcomeUnknown);
        }
      }
      return Ok(|rows|);
    }

    method QueueRecover(limit: nat, live: set<nat>, r: Clock.Reading, fate: Fate) returns (n: Result<nat, StoreError>)
      modifies this
      ensures (View(), n) == Queue.Recover(old(View()), limit, live, r, fate)
    {
      if !(1 <= limit <= Queue.BATCH) {
        return Err(InvalidInput);
      }
      active := map id | id in active && active[id].serial in live :: active[id];
      assert View() == Queue.Pruned(old(View()), live);
      if r.wall.None? {
        return Err(InvalidInput);
      }
      n := RecoverOwnerless(limit, r.wall.value, fate);
    }

    method RecoverOwnerless(limit: nat, now: nat, fate: Fate) returns (n: Result<nat, StoreError>)
      requires limit >= 1
      modifies this`db, this`recoveryCursor
      ensures (View(), n) == Queue.RecoverBatch(old(View()), limit, now, fate)
    {
      var rows := First(Queue.RecoveryKeys(db, recoveryCursor), limit);
      BatchIs(View(), limit, now + Queue.RECOVERY_DELAY_MS);
      var done := RecoverLoop(db, rows, active, now);
      if done.Err? {
        return Err(done.error);
      }
      var (tx, recovered) := done.value;
      if recovered > 0 {
        var ok := Commit(tx, fate);
        if !ok {
          return Err(OutcomeUnknown);
        }
      }
      recoveryCursor := if |rows| == limit then rows[limit - 1].id else -1;
      return Ok(recovered);
    }

    /** The claim proper, after its recovery and expiry batches. */
    method ClaimDue(ctx: Queue.Context, fate: Fate) returns (r: Result<seq<Queue.Lease>, StoreError>)
      requires ctx.policy.Valid() && ctx.active == active
      modifies this`db, this`readyCursor, this`active
      ensures (View(), r) == Queue.ClaimDue(old(View()), ctx, fate)
    {
      if ctx.available == 0 {
        return Ok([]);
      }
      var domains := CountDomains(active, ctx.live);
      var rows := First(Queue.ReadyKeys(db, ctx.now, readyCursor), Queue.BATCH);
      var scan := ScanLoop(db, rows, ctx, domains);
      if scan.Err? {
        return Err(scan.error);
      }
      Queue.ScanSeesWithinBatch(Queue.Claimed(db, [], 0), rows, ctx);
      r := ClaimCommit(rows, scan.value, fate);
    }

    method ClaimCommit(rows: seq<Key>, c: Queue.Claimed, fate: Fate) returns (r: Result<seq<Queue.Lease>, StoreError>)
      requires c.seen <= |rows|
      modifies this`db, this`readyCursor, this`active
      ensures (View(), r) == Queue.ClaimCommit(old(View()), rows, c, fate)
    {
      var ok := Commit(c.tx, fate);
      if !ok {
        return Err(OutcomeUnknown);
      }
      readyCursor := if |rows| < Queue.BATCH && c.seen == |rows| then None
                     else if c.seen == 0 then None else Some(rows[c.seen - 1]);
      active := RegisterAll(active, c.leases);
      return Ok(c.leases);
    }

    /** queue_claim. */
    method QueueClaim(policy: Queue.Policy, limit: nat, live: set<nat>, w: Queue.Weather, draws: seq<Queue.Draw>,
                      serial: nat)
      returns (r: Result<seq<Queue.Lease>, StoreError>)
      modifies this
      ensures (View(), r) == Queue.Claim(old(View()), policy, limit, live, w, draws, serial)
    {
      if !policy.Valid() || !(1 <= limit <= Queue.BATCH) {
        return Err(InvalidInput);
      }
      var now := Now(w.first);
      if now.Err? {
        return Err(now.error);
      }
      r := ClaimAt(Queue.Order(policy, limit, live, now.value, draws, serial), w);
    }

    method ClaimAt(o: Queue.Order, w: Queue.Weather) returns (r: Result<seq<Queue.Lease>, StoreError>)
      requires o.policy.Valid()
      modifies this
      ensures (View(), r)
              == Queue.ThenExpire(Queue.Recover(old(View()), Queue.BATCH, o.live, w.recovery, w.recoveryFate), o, w)
    {
      var recovered := QueueRecover(Queue.BATCH, o.live, w.recovery, w.recoveryFate);
      if recovered.Err? {
        return Err(recovered.error);
      }
      r := ExpireThenClaim(o, w);
    }

    method ExpireThenClaim(o: Queue.Order, w: Queue.Weather) returns (r: Result<seq<Queue.Lease>, StoreError>)
      requires o.policy.Valid()
      modifies this
      ensures (View(), r) == Queue.ThenClaim(Queue.Expire(old(View()), Queue.BATCH, w.expiry, w.expiryFate), o, w.fate)
    {
      var expired := QueueExpire(Queue.BATCH, w.expiry, w.expiryFate);
      if expired.Err? {
        return Err(expired.error);
      }
      r := ClaimOrdered(o, w.fate);
    }

    method ClaimOrdered(o: Queue.Order, fate: Fate) returns (r: Result<seq<Queue.Lease>, StoreError>)
      requires o.policy.Valid()
      modifies this`db, this`readyCursor, this`active
      ensures var s := old(View());
              (View(), r)
              == Queue.ClaimDue(s, Queue.ClaimContext(s, o.policy, o.limit, o.live, o.now, o.draws, o.serial), fate)
    {
      var free := if |active| < o.policy.concurrency then o.policy.concurrency - |active| else 0;
      var available := if free < o.limit then free else o.limit;
      var ctx := Queue.Context(o.now, o.policy, active, o.live, o.draws, lock, o.serial, available);
      assert ctx == Queue.ClaimContext(View(), o.policy, o.limit, o.live, o.now, o.draws, o.serial);
      r := ClaimDue(ctx, fate);
    }

    method QueueRenew(lease: Queue.Lease, seconds: nat, r: Clock.Reading, fate: Fate)
      returns (done: Result<(), StoreError>)
      modifies this
      ensures (View(), done) == Queue.Renew(old(View()), lease, seconds, r, fate)
    {
      if !(1 <= seconds <= 3600) {
        return Err(InvalidInput);
      }
      var now := Now(r);
      if now.Err? {
        return Err(now.error);
      }
      var valid := Holds(lease);
      if valid.None? {
        return Err(StaleLease);
      }
      var until := Queue.Later(now.value, seconds * 1000);
      if until.Err? {
        return Err(until.error);
      }
      var d := db.deliveries[lease.id];
      var kept := if d.leaseUntil.Some? && d.leaseUntil.value > until.value then d.leaseUntil.value else until.value;
      var ok := Commit(Queue.Put(db, lease.id, d.(leaseUntil := Some(kept))), fate);
      return if ok then Ok(()) else Err(OutcomeUnknown);
    }

    /** check_lease: the phase of the lease, if this is the one in force. */
    method Holds(lease: Queue.Lease) returns (phase: Option<Phase>)
      ensures phase == Queue.CheckLease(View(), lease)
      ensures phase.Some? ==> lease.id in db.deliveries && lease.id in db.leases
    {
      if lease.lock != lock || lease.id !in db.deliveries || lease.id !in db.leases {
        return None;
      }
      var d := db.deliveries[lease.id];
      if d.route != Relay || d.state != Leased || d.token != Some(lease.token) || d.generation != lease.generation {
        return None;
      }
      return Some(db.leases[lease.id]);
    }

    method QueueMarkBody(lease: Queue.Lease, fate: Fate) returns (done: Result<(), StoreError>)
      modifies this
      ensures (View(), done) == Queue.MarkBody(old(View()), lease, fate)
    {
      var valid := Holds(lease);
      if valid.None? {
        return Err(StaleLease);
      }
      var ok := Commit(db.(leases := db.leases[lease.id := Body]), fate);
      return if ok then Ok(()) else Err(OutcomeUnknown);
    }

    method QueueFinish(lease: Queue.Lease, outcome: Queue.QueueResult, r: Clock.Reading, guarded: Clock.Reading,
                       fate: Fate)
      returns (done: Result<(), StoreError>)
      modifies this
      ensures (View(), done) == Queue.Finish(old(View()), lease, outcome, r, guarded, fate)
    {
      if r.wall.None? {
        return Err(InvalidInput);
      }
      var now := r.wall.value;
      var due := Now(guarded);
      if due == Err(ClockChanged) {
        due := Ok(if lastWall.Some? then lastWall.value else now);
      }
      if due.Err? {
        return Err(due.error);
      }
      var phase := Holds(lease);
      if phase.None? {
        return Err(StaleLease);
      }
      var verdict := Queue.Verdict(phase.value, outcome);
      if verdict.None? {
        return Err(InvalidInput);
      }
      done := Record(lease, verdict.value, now, due.value, fate);
    }

    method Record(lease: Queue.Lease, verdict: (State, Option<int>, Option<Reason>), now: nat, due: nat, fate: Fate)
      returns (done: Result<(), StoreError>)
      requires lease.id in db.deliveries
      modifies this`db
      ensures var row := Queue.FinishedRow(old(db).deliveries[lease.id], verdict,
                                           Queue.SaturatingAdd(now, lease.retryMs), due);
              db == Settle(old(db), Queue.Put(old(db), lease.id, row).(leases := old(db).leases - {lease.id}), fate)
      ensures done == if fate.Confirmed? then Ok(()) else Err(OutcomeUnknown)
    {
      var d := db.deliveries[lease.id];
      var state := verdict.0;
      if d.possiblyDelivered && state != Delivered {
        state := Uncertain;
      }
      var row := d.(state := state, token := None, leaseUntil := None, lastCode := verdict.1,
                    nextAttempt := Queue.SaturatingAdd(now, lease.retryMs), reason := verdict.2,
                    possiblyDelivered := state == Uncertain, noticeDue := due);
      var ok := Commit(Queue.Put(db, lease.id, row).(leases := db.leases - {lease.id}), fate);
      return if ok then Ok(()) else Err(OutcomeUnknown);
    }

    method QueueHold(id: Id, r: Clock.Reading, fate: Fate) returns (done: Result<(), StoreError>)
      modifies this
      ensures (View(), done) == Queue.HoldRow(old(View()), id, r, fate)
    {
      if r.wall.None? {
        return Err(InvalidInput);
      }
      if id !in db.deliveries || db.deliveries[id].route != Relay {
        return Err(NotFound);
      }
      var d := db.deliveries[id];
      if d.closedAt.Some? || d.state !in {Pending, Deferred, Uncertain, State.Hold} {
        return Err(InvalidInput);
      }
      var row := d.(state := State.Hold, reason := Some(Manual),
                    possiblyDelivered := d.possiblyDelivered || d.state == Uncertain);
      var ok := Commit(Queue.Log(Queue.Put(db, id, row),
                                 AdminEvent(id, HoldAction, d.state, State.Hold, false, false)), fate);
      return if ok then Ok(()) else Err(OutcomeUnknown);
    }

    method QueueRetry(id: Id, allowDuplicate: bool, extendExpired: bool, r: Clock.Reading, fate: Fate)
      returns (done: Result<(), StoreError>)
      modifies this
      ensures (View(), done) == Queue.Retry(old(View()), id, allowDuplicate, extendExpired, r, fate)
    {
      var now := Now(r);
      if now.Err? {
        return Err(now.error);
      }
      if id !in db.deliveries || db.deliveries[id].route != Relay || db.deliveries[id].message !in db.queued {
        return Err(NotFound);
      }
      var d := db.deliveries[id];
      if d.state !in {Deferred, Uncertain, State.Hold} || d.closedAt.Some?
         || (d.state != Deferred && !allowDuplicate) || (d.expires <= now.value && !extendExpired) {
        return Err(InvalidInput);
      }
      var expires := Ok(d.expires);
      if d.expires <= now.value {
        expires := Queue.Later(now.value, db.queued[d.message].maxAge * 1000);
        if expires.Err? {
          return Err(expires.error);
        }
      }
      var row := d.(state := Pending, nextAttempt := now.value, expires := expires.value, reason := None);
      var event := AdminEvent(id, RetryAction, d.state, Pending, allowDuplicate, extendExpired);
      var ok := Commit(Queue.Log(Queue.Put(db, id, row), event), fate);
      return if ok then Ok(()) else Err(OutcomeUnknown);
    }

    method QueueCloseUnknown(id: Id, note: string, r: Clock.Reading, fate: Fate) returns (done: Result<(), StoreError>)
      modifies this
      ensures (View(), done) == Queue.CloseUnknown(old(View()), id, note, r, fate)
    {
      if !Queue.ValidNote(note) || r.wall.None? {
        return Err(InvalidInput);
      }
      if id !in db.deliveries || db.deliveries[id].route != Relay {
        return Err(NotFound);
      }
      var d := db.deliveries[id];
      if d.state !in {Uncertain, State.Hold} || !d.possiblyDelivered || d.closedAt.Some? {
        return Err(InvalidInput);
      }
      var row := d.(state := Uncertain, closedAt := Some(r.wall.value));
      var ok := Commit(Queue.Log(Queue.Put(db, id, row),
                                 AdminEvent(id, CloseAction, d.state, Uncertain, false, false)), fate);
      return if ok then Ok(()) else Err(OutcomeUnknown);
    }

    /** accept_inner: one transaction for the message and all its deliveries. */
    method Accept(q: Acceptance.Request, p: Acceptance.Prepared, ids: Acceptance.Fresh, r: Clock.Reading, fate: Fate)
      returns (a: Result<Acceptance.Receipt, StoreError>)
      modifies this`db
      ensures (db, a) == Acceptance.Accept(old(db), q, p, ids, r, fate)
    {
      if !Acceptance.ValidRequest(q) {
        return Err(InvalidInput);
      }
      if !Acceptance.Permitted(db, q) {
        return Err(PermissionDenied);
      }
      if Operation(q.plan.operation) in db.keys {
        Acceptance.AcceptOfKnown(db, q, p, ids, r, fate);
        a := AcceptKnown(q, p);
      } else {
        a := AcceptUnknown(q, p, ids, r, fate);
      }
    }

    /** ... under a key that is in use: the same terms, or a conflict. */
    method AcceptKnown(q: Acceptance.Request, p: Acceptance.Prepared)
      returns (a: Result<Acceptance.Receipt, StoreError>)
      requires Operation(q.plan.operation) in db.keys
      ensures a == Acceptance.KnownAnswer(db, q, p)
    {
      var id := db.keys[Operation(q.plan.operation)];
      if id !in db.messages || db.messages[id].blob !in db.blobs {
        return Err(Database);
      }
      if Acceptance.Stored(db, id) != Acceptance.Asked(q, p) {
        return Err(IdempotencyConflict);
      }
      return Ok(Acceptance.Receipt(id, true));
    }

    /** ... under a new key: insert and commit. */
    method AcceptUnknown(q: Acceptance.Request, p: Acceptance.Prepared, ids: Acceptance.Fresh, r: Clock.Reading,
                         fate: Fate)
      returns (a: Result<Acceptance.Receipt, StoreError>)
      requires Acceptance.ValidRequest(q) && Acceptance.Permitted(db, q) && Operation(q.plan.operation) !in db.keys
      modifies this`db
      ensures (db, a) == Acceptance.Accept(old(db), q, p, ids, r, fate)
    {
      Acceptance.AcceptOfNew(db, q, p, ids, r, fate);
      if r.wall.None? {
        return Err(InvalidInput);
      }
      var tx := InsertAccepted(db, q, p, ids, r.wall.value);
      if tx.Err? {
        return Err(tx.error);
      }
      var ok := Commit(tx.value, fate);
      return if ok then Ok(Acceptance.Receipt(ids.message, false)) else Err(OutcomeUnknown);
    }

    /** enqueue: the same for a message that is only relayed. */
    method Enqueue(plan: Acceptance.QueuePlan, p: Acceptance.Prepared, ids: Acceptance.Fresh, r: Clock.Reading,
                   fate: Fate)
      returns (a: Result<Acceptance.Receipt, StoreError>)
      modifies this`db
      ensures (db, a) == Acceptance.Enqueue(old(db), plan, p, ids, r, fate)
    {
      if !Acceptance.ValidQueuePlan(plan) || r.wall.None? {
        return Err(InvalidInput);
      }
      var key := Operation(plan.operation);
      if key in db.keys {
        var id := db.keys[key];
        if id !in db.messages || db.messages[id].blob !in db.blobs {
          return Err(Database);
        }
        if !Acceptance.SameImport(db, id, plan, p) {
          return Err(IdempotencyConflict);
        }
        return Ok(Acceptance.Receipt(id, true));
      }
      var tx := InsertEnqueued(db, plan, p, ids, r.wall.value);
      if tx.Err? {
        return Err(tx.error);
      }
      var ok := Commit(tx.value, fate);
      return if ok then Ok(Acceptance.Receipt(ids.message, false)) else Err(OutcomeUnknown);
    }

    /** notification_next: the first due failure is suppressed, planned for, or put off. */
    method NotificationNext(policy: Notification.Policy, report: Id, size: Option<nat>, staged: bool,
                            r: Clock.Reading, again: Clock.Reading)
      returns (work: Result<Notification.Work, StoreError>)
      modifies this
      ensures (View(), work) == Notification.Next(old(View()), policy, report, size, staged, r, again)
    {
      if !Notification.ValidPolicy(policy) {
        return Err(InvalidInput);
      }
      var now := Now(r);
      if now.Err? {
        return Err(now.error);
      }
      var keys := Notification.DueKeys(db, now.value);
      var due := First(keys, 1);
      if due == [] {
        return Ok(Notification.Empty);
      }
      assert due[0] in keys;
      work := Offer(due[0].id, Notification.PlanReport(db, due[0].id, policy, report, size, staged), again);
    }

    method Offer(id: Id, plan: Result<Notification.Plan, StoreError>, again: Clock.Reading)
      returns (work: Result<Notification.Work, StoreError>)
      requires id in db.deliveries && db.deliveries[id].message in db.messages
      modifies this
      ensures (View(), work) == Notification.Offer(old(View()), id, plan, again)
    {
      if !Notification.Reportable(db.messages[db.deliveries[id].message]) {
        db := Notification.Suppress(db, id);
        return Ok(Notification.SuppressedOne);
      }
      if plan.Ok? {
        return Ok(Notification.Prepare(plan.value));
      }
      var backed := NotificationFailed(id, again);
      return Err(if backed.Err? then backed.error else plan.error);
    }

    /** notification_failed. */
    method NotificationFailed(id: Id, r: Clock.Reading) returns (done: Result<(), StoreError>)
      modifies this
      ensures (View(), done) == Notification.Postpone(old(View()), id, r)
    {
      var now := Now(r);
      if now.Err? {
        return Err(now.error);
      }
      if id in db.deliveries && db.deliveries[id].state == State.Failed && db.deliveries[id].notice == NotYet {
        db := Queue.Put(db, id, db.deliveries[id].(noticeDue := Queue.SaturatingAdd(now.value, Notification.RETRY_MS)));
      }
      return Ok(());
    }

    /** notification_commit: failure, report and its delivery in one transaction. */
    method NotificationCommit(plan: Notification.Plan, p: Acceptance.Prepared, delivery: Id, r: Clock.Reading,
                              fate: Fate)
      returns (a: Result<Acceptance.Receipt, StoreError>)
      modifies this
      ensures (View(), a) == Notification.CommitReport(old(View()), plan, p, delivery, r, fate)
    {
      var now := Now(r);
      if now.Err? {
        return Err(now.error);
      }
      if plan.delivery in db.notifications {
        return Ok(Acceptance.Receipt(db.notifications[plan.delivery], true));
      }
      if !Notification.Eligible(db, plan) {
        return Err(InvalidInput);
      }
      var tx := InsertReport(db, plan, p, delivery, now.value);
      if tx.Err? {
        return Err(tx.error);
      }
      var ok := Commit(tx.value, fate);
      return if ok then Ok(Acceptance.Receipt(plan.report, false)) else Err(OutcomeUnknown);
    }
  }

  /** The loop over local recipients: the first failure undoes the whole transaction. */
  method DeliverLoop(db: Db, recipients: seq<string>, message: Id, size: nat, ids: seq<Id>, now: int)
    returns (r: Result<Db, StoreError>)
    requires |ids| == |recipients|
    ensures r == LocalDelivery.DeliverAll(db, recipients, message, size, ids, now)
  {
    var tx, rest, fresh_ := db, recipients, ids;
    while rest != []
      invariant |fresh_| == |rest|
      invariant LocalDelivery.DeliverAll(tx, rest, message, size, fresh_, now)
                == LocalDelivery.DeliverAll(db, recipients, message, size, ids, now)
      decreases |rest|
    {
      var next := LocalDelivery.Deliver(tx, rest[0], message, size, fresh_[0], now);
      if next.Err? {
        return next;
      }
      tx, rest, fresh_ := next.value, rest[1..], fresh_[1..];
    }
    return Ok(tx);
  }

  /** The loop over remote recipients. */
  method RelayLoop(db: Db, message: Id, recipients: seq<string>, ids: seq<Id>, now: int, expires: int)
    returns (r: Result<Db, StoreError>)
    requires |ids| == |recipients|
    ensures r == Acceptance.RelayRows(db, message, recipients, ids, now, expires)
  {
    var tx, rest, fresh_ := db, recipients, ids;
    while rest != []
      invariant |fresh_| == |rest|
      invariant Acceptance.RelayRows(tx, message, rest, fresh_, now, expires)
                == Acceptance.RelayRows(db, message, recipients, ids, now, expires)
      decreases |rest|
    {
      var next := InsertDelivery(tx, fresh_[0], Acceptance.RelayRow(message, rest[0], now, expires));
      if next.Err? {
        return next;
      }
      tx, rest, fresh_ := next.value, rest[1..], fresh_[1..];
    }
    return Ok(tx);
  }

  method InsertRelayed(db: Db, message: Id, recipients: set<string>, meta: QueueMeta, ids: seq<Id>, now: int)
    returns (r: Result<Db, StoreError>)
    requires |ids| == |recipients|
    ensures r == Acceptance.InsertRelay(db, message, recipients, meta, ids, now)
  {
    var expires := Queue.Later(now, meta.maxAge * 1000);
    if expires.Err? {
      return Err(expires.error);
    }
    if message in db.queued {
      return Err(Database);
    }
    r := RelayLoop(db.(queued := db.queued[message := meta]), message, InOrder(recipients), ids, now, expires.value);
  }

  method InsertAccepted(db: Db, q: Acceptance.Request, p: Acceptance.Prepared, ids: Acceptance.Fresh, now: int)
    returns (r: Result<Db, StoreError>)
    ensures r == Acceptance.AcceptNew(db, q, p, ids, now)
  {
    var db1 := InsertBlob(db, p.id, Blob(p.size, p.hash));
    if db1.Err? {
      return db1;
    }
    var source := if q.Plain? then Smtp else Submission;
    var db2 := InsertMessage(db1.value, ids.message,
                             Message(Operation(q.plan.operation), p.id, source, Acceptance.SenderText(q.plan.sender),
                                     Acceptance.AccountOf(q)));
    if db2.Err? {
      return db2;
    }
    var keys := Acceptance.LocalKeys(q.plan.recipients);
    r := DeliverLoop(db2.value, InOrder(keys), ids.message, p.size, Acceptance.Supply(ids.local, |keys|), now);
    if r.Ok? && q.Relayed? {
      var remote := Acceptance.RemoteOf(q);
      r := InsertRelayed(r.value, ids.message, remote, Acceptance.MetaOf(q).value,
                         Acceptance.Supply(ids.relay, |remote|), now);
    }
  }

  method InsertReport(db: Db, plan: Notification.Plan, p: Acceptance.Prepared, delivery: Id, now: int)
    returns (r: Result<Db, StoreError>)
    ensures r == Notification.CommitNew(db, plan, p, delivery, now)
  {
    var db1 := InsertBlob(db, p.id, Blob(p.size, p.hash));
    if db1.Err? {
      return db1;
    }
    var db2 := InsertMessage(db1.value, plan.report, Message(Report(plan.delivery), p.id, Dsn, "", None));
    if db2.Err? {
      return db2;
    }
    if plan.local {
      r := LocalDelivery.Deliver(db2.value, Addresses.LocalKey(plan.recipient), plan.report, p.size, delivery, now);
    } else {
      r := InsertRelayed(db2.value, plan.report, {plan.recipient}, QueueMeta(SevenBit, plan.maxAge), [delivery], now);
    }
    if r.Ok? {
      r := LinkReport(r.value, plan);
    }
  }

  /** The notification row and the mark on its failure. */
  method LinkReport(db: Db, plan: Notification.Plan) returns (r: Result<Db, StoreError>)
    ensures r == if plan.delivery in db.notifications || plan.delivery !in db.deliveries then Err(Database)
                 else Ok(Reports.Linking(db, plan))
  {
    if plan.delivery in db.notifications || plan.delivery !in db.deliveries {
      return Err(Database);
    }
    var linked := db.(notifications := db.notifications[plan.delivery := plan.report]);
    return Ok(Queue.Put(linked, plan.delivery, linked.deliveries[plan.delivery].(notice := Created)));
  }

  method InsertEnqueued(db: Db, plan: Acceptance.QueuePlan, p: Acceptance.Prepared, ids: Acceptance.Fresh, now: int)
    returns (r: Result<Db, StoreError>)
    ensures r == Acceptance.EnqueueNew(db, plan, p, ids, now)
  {
    var db1 := InsertBlob(db, p.id, Blob(p.size, p.hash));
    if db1.Err? {
      return db1;
    }
    var db2 := InsertMessage(db1.value, ids.message,
                             Message(Operation(plan.operation), p.id, Import, Acceptance.SenderText(plan.sender),
                                     None));
    if db2.Err? {
      return db2;
    }
    var remote := Acceptance.Texts(plan.recipients);
    r := InsertRelayed(db2.value, ids.message, remote, QueueMeta(plan.body, plan.maxAge),
                       Acceptance.Supply(ids.relay, |remote|), now);
  }

  /** The recovery loop: ownerless rows one after the other, and how many they were. */
  function RecoverEach(db: Db, rows: seq<Key>, active: map<Id, Queue.Guard>, next: int): (Db, nat) {
    if rows == [] then (db, 0)
    else
      var (tx, n) := RecoverEach(db, rows[..|rows| - 1], active, next);
      var id := rows[|rows| - 1].id;
      if id in active then (tx, n) else (RecoverOne(tx, id, next), n + 1)
  }

  lemma RecoverEachStep(db: Db, rows: seq<Key>, i: nat, active: map<Id, Queue.Guard>, next: int)
    requires i < |rows|
    ensures var (tx, n) := RecoverEach(db, rows[..i], active, next);
            RecoverEach(db, rows[..i + 1], active, next)
            == if rows[i].id in active then (tx, n) else (RecoverOne(tx, rows[i].id, next), n + 1)
  {
    assert rows[..i + 1][..i] == rows[..i];
  }

  /** Leased rows, each once. */
  ghost predicate BatchOf(db: Db, rows: seq<Key>) {
    && (forall i :: 0 <= i < |rows| ==> rows[i].id in db.deliveries && rows[i].id in db.leases)
    && forall i, j :: 0 <= i < j < |rows| ==> rows[i].id != rows[j].id
  }

  lemma RecoverOneMore(db: Db, gone: set<Id>, tx: Db, id: Id, next: int)
    requires tx == Queue.RecoverRows(db, gone, next) && id in db.deliveries && id in db.leases && id !in gone
    ensures RecoverOne(tx, id, next) == Queue.RecoverRows(db, gone + {id}, next)
  {
    RecoverStep(db, gone, id, next);
  }

  lemma AbsentLast(rows: seq<Key>, active: map<Id, Queue.Guard>)
    requires rows != [] && forall i, j :: 0 <= i < j < |rows| ==> rows[i].id != rows[j].id
    ensures var n := |rows| - 1;
            var before, id := Absent(rows[..n], active), rows[n].id;
            && id !in before && Absent(rows, active) == if id in active then before else before + {id}
  {
    var n := |rows| - 1;
    assert rows[..n + 1] == rows;
    IdsStep(rows, n);
  }

  /** ... is recovery of the whole set at once. */
  lemma {:induction false} RecoverEachIs(db: Db, rows: seq<Key>, active: map<Id, Queue.Guard>, next: int)
    requires BatchOf(db, rows)
    ensures RecoverEach(db, rows, active, next).0 == Queue.RecoverRows(db, Absent(rows, active), next)
    ensures RecoverEach(db, rows, active, next).1 == |Absent(rows, active)|
  {
    if rows == [] {
      NothingRecovered(db, next);
      assert Absent(rows, active) == {};
    } else {
      RecoverEachIs(db, rows[..|rows| - 1], active, next);
      RecoverLast(db, rows, active, next);
    }
  }

  /** The last turn of the loop. */
  lemma RecoverLast(db: Db, rows: seq<Key>, active: map<Id, Queue.Guard>, next: int)
    requires rows != [] && BatchOf(db, rows)
    requires var before := rows[..|rows| - 1];
             RecoverEach(db, before, active, next)
             == (Queue.RecoverRows(db, Absent(before, active), next), |Absent(before, active)|)
    ensures RecoverEach(db, rows, active, next)
            == (Queue.RecoverRows(db, Absent(rows, active), next), |Absent(rows, active)|)
  {
    var n := |rows| - 1;
    var gone, id := Absent(rows[..n], active), rows[n].id;
    AbsentLast(rows, active);
    if id !in active {
      RecoverOneMore(db, gone, Queue.RecoverRows(db, gone, next), id, next);
      assert Absent(rows, active) == gone + {id} && |gone + {id}| == |gone| + 1;
    }
  }

  /** The batch of a store: its rows, and what the loop makes of them. */
  lemma BatchIs(s: Queue.Store, limit: nat, next: int)
    ensures var rows := Queue.RecoveryBatch(s, limit);
            && Absent(rows, s.rt.active) == Queue.Ownerless(s, limit)
            && RecoverEach(s.db, rows, s.rt.active, next)
               == (Queue.RecoverRows(s.db, Queue.Ownerless(s, limit), next), |Queue.Ownerless(s, limit)|)
  {
    var keys, rows := Queue.RecoveryKeys(s.db, s.rt.recoveryCursor), Queue.RecoveryBatch(s, limit);
    forall i | 0 <= i < |rows| ensures rows[i].id in s.db.deliveries && rows[i].id in s.db.leases {
      assert rows[i] in keys;
    }
    forall i, j | 0 <= i < j < |rows| ensures rows[i].id != rows[j].id {
      assert rows[i] in keys && rows[j] in keys && Before(rows[i], rows[j]);
    }
    RecoverEachIs(s.db, rows, s.rt.active, next);
  }

  /** The loop of `queue_recover` over its batch. */
  method RecoverLoop(db: Db, rows: seq<Key>, active: map<Id, Queue.Guard>, now: nat)
    returns (r: Result<(Db, nat), StoreError>)
    ensures var next := Queue.Later(now, Queue.RECOVERY_DELAY_MS);
            if next.Err? && Absent(rows, active) != {} then r == Err(next.error)
            else r == Ok(RecoverEach(db, rows, active, now + Queue.RECOVERY_DELAY_MS))
  {
    var tx, recovered := db, 0;
    for i := 0 to |rows|
      invariant (tx, recovered) == RecoverEach(db, rows[..i], active, now + Queue.RECOVERY_DELAY_MS)
      invariant Queue.Later(now, Queue.RECOVERY_DELAY_MS).Err? ==> forall j :: 0 <= j < i ==> rows[j].id in active
    {
      var id := rows[i].id;
      RecoverEachStep(db, rows, i, active, now + Queue.RECOVERY_DELAY_MS);
      if id in active {
        continue;
      }
      AbsentSome(rows, i, active);
      var next := Queue.Later(now, Queue.RECOVERY_DELAY_MS);
      if next.Err? {
        return Err(next.error);
      }
      tx, recovered := RecoverOne(tx, id, next.value), recovered + 1;
    }
    assert rows[..|rows|] == rows;
    assert (forall j :: 0 <= j < |rows| ==> rows[j].id in active) ==> Absent(rows, active) == {} by {
      if forall j :: 0 <= j < |rows| ==> rows[j].id in active {
        AllPresent(rows, active);
      }
    }
    return Ok((tx, recovered));
  }

  /** Makes the guards of the new leases known. */
  method RegisterAll(active: map<Id, Queue.Guard>, leases: seq<Queue.Lease>) returns (next: map<Id, Queue.Guard>)
    ensures next == Queue.Registered(active, leases)
  {
    next := active;
    var rest := leases;
    while rest != []
      invariant Queue.Registered(next, rest) == Queue.Registered(active, leases)
      decreases |rest|
    {
      next, rest := next[rest[0].id := Queue.Guard(rest[0].serial, rest[0].domain)], rest[1..];
    }
  }

  /** Counts the live owners of every domain. */
  method CountDomains(active: map<Id, Queue.Guard>, live: set<nat>) returns (domains: map<string, nat>)
    ensures forall domain :: Get(domains, domain) == Queue.Load(active, live, domain)
  {
    domains := map[];
    var todo, done := active.Keys, {};
    while todo != {}
      invariant todo + done == active.Keys && todo !! done
      invariant forall domain :: Get(domains, domain) == |HoldersIn(active, live, done, domain)|
      decreases |todo|
    {
      var id :| id in todo;
      forall domain
        ensures |HoldersIn(active, live, done + {id}, domain)|
                == Get(domains, domain) + if active[id].serial in live && active[id].domain == domain then 1 else 0
      {
        HoldersStep(active, live, done, id, domain);
      }
      if active[id].serial in live {
        domains := Bump(domains, active[id].domain);
      }
      todo, done := todo - {id}, done + {id};
    }
    assert done == active.Keys;
    forall domain ensures Get(domains, domain) == Queue.Load(active, live, domain) {
      HoldersAll(active, live, domain);
    }
  }

  /** One candidate of `queue_claim`, against the counters kept so far. */
  method ExamineOne(c: Queue.Claimed, domains: map<string, nat>, id: Id, ctx: Queue.Context)
    returns (r: Result<Queue.Claimed, StoreError>, domains': map<string, nat>)
    requires ctx.policy.Valid() && Counts(domains, c.leases, ctx)
    ensures r == Queue.Examine(c, id, ctx)
    ensures r.Ok? ==> Counts(domains', r.value.leases, ctx)
  {
    domains' := domains;
    var next := c.(seen := c.seen + 1);
    if id in ctx.active || id !in c.tx.deliveries {
      return Ok(next), domains;
    }
    var d := c.tx.deliveries[id];
    if d.expires <= ctx.now {
      return Ok(next), domains;
    }
    if d.attempts >= I64_MAX || d.generation >= I64_MAX {
      return Ok(next.(tx := Queue.Put(c.tx, id, d.(state := State.Hold, reason := Some(Counter))))), domains;
    }
    var recipient := Addresses.Parse(d.recipient);
    if recipient.None? {
      return Err(Integrity), domains;
    }
    var domain := Addresses.DomainOf(recipient.value);
    if Get(domains, domain) >= ctx.policy.perDomain {
      return Ok(next), domains;
    }
    r := Queue.Leasing(c, id, recipient.value, ctx);
    if r.Ok? {
      LeasingAdds(c, id, recipient.value, ctx);
      CountsStep(domains, c.leases, r.value.leases[|c.leases|], ctx);
      domains' := Bump(domains, domain);
    }
  }

  lemma LeasingAdds(c: Queue.Claimed, id: Id, recipient: string, ctx: Queue.Context)
    requires ctx.policy.Valid() && id in c.tx.deliveries && Queue.Leasing(c, id, recipient, ctx).Ok?
    ensures var leases := Queue.Leasing(c, id, recipient, ctx).value.leases;
            && |leases| == |c.leases| + 1 && leases == c.leases + [leases[|c.leases|]]
            && leases[|c.leases|].domain == Addresses.DomainOf(recipient)
  {
  }

  /** The candidate loop. */
  method ScanLoop(db: Db, rows: seq<Key>, ctx: Queue.Context, counted: map<string, nat>)
    returns (r: Result<Queue.Claimed, StoreError>)
    requires ctx.policy.Valid() && ctx.available >= 1 && Counts(counted, [], ctx)
    ensures r == Queue.Scan(Queue.Claimed(db, [], 0), rows, ctx)
  {
    var c, domains := Queue.Claimed(db, [], 0), counted;
    var rest := rows;
    while rest != [] && |c.leases| < ctx.available
      invariant Counts(domains, c.leases, ctx)
      invariant Queue.Scan(c, rest, ctx) == Queue.Scan(Queue.Claimed(db, [], 0), rows, ctx)
      decreases |rest|
    {
      var next;
      next, domains := ExamineOne(c, domains, rest[0].id, ctx);
      if next.Err? {
        return next;
      }
      c, rest := next.value, rest[1..];
    }
    return Ok(c);
  }

  /** The rows of a batch whose owners are gone. */
  function Absent(rows: seq<Key>, active: map<Id, Queue.Guard>): set<Id> { set id | id in Ids(rows) && id !in active }

  lemma AllPresent(rows: seq<Key>, active: map<Id, Queue.Guard>)
    requires forall j :: 0 <= j < |rows| ==> rows[j].id in active
    ensures Absent(rows, active) == {}
  {
  }

  lemma AbsentSome(rows: seq<Key>, i: nat, active: map<Id, Queue.Guard>)
    requires i < |rows| && rows[i].id !in active
    ensures Absent(rows, active) != {}
  {
    assert rows[i].id in Absent(rows, active);
  }

}
