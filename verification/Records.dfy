/**
 * What the queue's transactions leave behind, row by row and code by code (crates/store/src/queue.rs): each
 * confirmed call is described by the columns before and after it.
 */
module Records {
  import opened Wrappers
  import opened Tables
  import opened Ordering
  import opened Moves
  import Clock
  import Fairness
  import Growth
  import Guarantees
  import Queue
  import RelaySystem
  import Transactions

  // ---------------------------------------------------------------- every run

  /**
   * In every run a failed relay row has expired or was refused for good, a delivered one was accepted, a
   * deferred one met no reply or a temporary refusal, and only mail nobody is told about goes unreported.
   */
  lemma StatesAreEarned(policy: Queue.Policy, steps: seq<RelaySystem.Step>, id: Id)
    requires id in RelaySystem.Run(policy, steps).store.db.deliveries
    requires RelaySystem.Run(policy, steps).store.db.deliveries[id].route == Relay
    ensures var db := RelaySystem.Run(policy, steps).store.db;
            var d := db.deliveries[id];
            && (d.state == Failed ==>
                  || d.reason == Some(Expired)
                  || (d.reason == Some(SmtpPermanent) && d.lastCode.Some? && 500 <= d.lastCode.value <= 599))
            && (d.state == Delivered ==> d.lastCode.Some? && 200 <= d.lastCode.value <= 299)
            && (d.state == Deferred && d.lastCode.Some? ==> 400 <= d.lastCode.value <= 499)
            && d.message in db.messages
            && (d.notice == Suppressed ==>
                  || db.messages[d.message].source != Submission
                  || db.messages[d.message].sender == "" || db.messages[d.message].account.None?)
  {
    var db := RelaySystem.Run(policy, steps).store.db;
    assert Transactions.DbOk(db) by {
      Guarantees.RunsAreGood(policy, steps);
    }
    RowIsEarned(db, id);
  }

  lemma RowIsEarned(db: Db, id: Id)
    requires Transactions.DbOk(db) && id in db.deliveries
    ensures RowOk(ViewOf(db, id)) && db.deliveries[id].message in db.messages
  {
    assert Growth.DeliveryOk(db, db.deliveries[id]);
  }

  // ---------------------------------------------------------------- finishing an attempt

  /** Results an attempt in this phase can have. */
  predicate Possible(phase: Phase, outcome: Queue.QueueResult) {
    match outcome
    case Accepted(code) => phase == Body && 200 <= code <= 299
    case Temporary(code) => 400 <= code <= 499
    case Permanent(code) => 500 <= code <= 599
    case ConnectionLost => true
    case HoldBack => true
    case Unavailable => phase == Ready
  }

  /** What becomes of a row, flagged as possibly delivered before or not. */
  predicate Concludes(outcome: Queue.QueueResult, phase: Phase, flagged: bool, state: State) {
    match outcome
    case Accepted(_) => state == Delivered
    case Temporary(_) => state == if flagged then Uncertain else Deferred
    case Permanent(_) => state == if flagged then Uncertain else Failed
    case ConnectionLost => state == if flagged || phase == Body then Uncertain else Deferred
    case HoldBack => state == if flagged then Uncertain else Hold
    case Unavailable => state == if flagged then Uncertain else Deferred
  }

  predicate Cites(outcome: Queue.QueueResult, code: Option<int>, reason: Option<Reason>) {
    match outcome
    case Accepted(reply) => code == Some(reply) && reason == None
    case Temporary(reply) => code == Some(reply) && reason == None
    case Permanent(reply) => code == Some(reply) && reason == Some(SmtpPermanent)
    case ConnectionLost => code == None && reason == None
    case HoldBack => code == None && reason == Some(Content)
    case Unavailable => code == None && reason == None
  }

  lemma VerdictIs(phase: Phase, outcome: Queue.QueueResult, flagged: bool)
    ensures Queue.Verdict(phase, outcome).Some? <==> Possible(phase, outcome)
    ensures Possible(phase, outcome) ==>
              var (state, code, reason) := Queue.Verdict(phase, outcome).value;
              && Cites(outcome, code, reason)
              && Concludes(outcome, phase, flagged, if flagged && state != Delivered then Uncertain else state)
  {
  }

  /** The row an attempt leaves: its verdict, its code, the next attempt, and no lease. */
  predicate Concluded(d: Delivery, e: Delivery, phase: Phase, lease: Queue.Lease, outcome: Queue.QueueResult,
                      now: nat) {
    && Concludes(outcome, phase, d.possiblyDelivered, e.state) && Cites(outcome, e.lastCode, e.reason)
    && e.possiblyDelivered == (e.state == Uncertain)
    && e.nextAttempt == Min(now + lease.retryMs, I64_MAX) && e.token.None? && e.leaseUntil.None?
    && e == d.(state := e.state, lastCode := e.lastCode, reason := e.reason, nextAttempt := e.nextAttempt,
               token := None, leaseUntil := None, possiblyDelivered := e.possiblyDelivered, noticeDue := e.noticeDue)
  }

  /** No row but this one differs, and no other table but the named ones. */
  ghost predicate OnlyDelivery(db: Db, next: Db, id: Id) {
    && next == db.(deliveries := next.deliveries, leases := next.leases, admin := next.admin)
    && id in db.deliveries && next.deliveries.Keys == db.deliveries.Keys
    && (forall x :: x in db.deliveries && x != id ==> next.deliveries[x] == db.deliveries[x])
    && next.leases - {id} == db.leases - {id}
  }

  lemma FinishParts(s: Queue.Store, lease: Queue.Lease, outcome: Queue.QueueResult, r: Clock.Reading,
                    guarded: Clock.Reading, phase: Phase)
    requires r.wall.Some? && guarded.wall.Some? && Queue.CheckLease(s, lease) == Some(phase)
    ensures var (t, done) := Queue.Finish(s, lease, outcome, r, guarded, Confirmed);
            var v := Queue.Verdict(phase, outcome);
            && (done.Ok? <==> v.Some?)
            && (done.Ok? ==>
                  exists due: nat ::
                    var row := Queue.FinishedRow(s.db.deliveries[lease.id], v.value,
                                                 Queue.SaturatingAdd(r.wall.value, lease.retryMs), due);
                    t.db == Queue.Put(s.db, lease.id, row).(leases := s.db.leases - {lease.id}))
  {
    var due := Queue.NoticeDue(s, r.wall.value, guarded);
    assert due.1.Ok? && due.0.db == s.db && Queue.CheckLease(due.0, lease) == Some(phase);
  }

  /**
   * A confirmed finish is refused exactly for a stale lease or a result its phase cannot have; otherwise it
   * writes the verdict of the result into the row of the lease, ends the lease and touches nothing else.
   */
  lemma FinishRecords(s: Queue.Store, lease: Queue.Lease, outcome: Queue.QueueResult, r: Clock.Reading,
                      guarded: Clock.Reading)
    requires r.wall.Some? && guarded.wall.Some?
    ensures var (t, done) := Queue.Finish(s, lease, outcome, r, guarded, Confirmed);
            var phase := Queue.CheckLease(s, lease);
            && (done.Ok? <==> phase.Some? && Possible(phase.value, outcome))
            && (done.Err? ==> t.db == s.db)
            && (done.Ok? ==>
                  && OnlyDelivery(s.db, t.db, lease.id) && lease.id !in t.db.leases && t.db.admin == s.db.admin
                  && Concluded(s.db.deliveries[lease.id], t.db.deliveries[lease.id], phase.value, lease, outcome,
                               r.wall.value))
  {
    var phase := Queue.CheckLease(s, lease);
    if phase.Some? {
      FinishParts(s, lease, outcome, r, guarded, phase.value);
      VerdictIs(phase.value, outcome, s.db.deliveries[lease.id].possiblyDelivered);
    } else {
      var due := Queue.NoticeDue(s, r.wall.value, guarded);
      assert due.0.db == s.db && Queue.CheckLease(due.0, lease).None?;
    }
  }

  /** What a reply to the final dot is recorded as. */
  function Meaning(code: nat): Queue.QueueResult {
    if 200 <= code <= 299 then Queue.Accepted(code)
    else if 400 <= code <= 499 then Queue.Temporary(code)
    else if 500 <= code <= 599 then Queue.Permanent(code)
    else Queue.ConnectionLost
  }

  lemma ReplyMeans(s: RelaySystem.Sys, n: nat, code: nat)
    requires n in s.attempts && s.attempts[n].stage == RelaySystem.Dotted
    ensures RelaySystem.Attempted(s, RelaySystem.Reply(n, code), n)
            == RelaySystem.At(s, n, RelaySystem.Done(Meaning(code)))
  {
  }

  /** A refusal before any body byte; anything but a 4xx or 5xx counts as a lost connection. */
  lemma RefusalMeans(s: RelaySystem.Sys, n: nat, code: nat)
    requires n in s.attempts && s.attempts[n].stage == RelaySystem.Envelope
    ensures RelaySystem.Attempted(s, RelaySystem.FailEnvelope(n, RelaySystem.Refusal(code)), n)
            == RelaySystem.At(s, n, RelaySystem.Done(if 400 <= code <= 599 then Meaning(code)
                                                     else Queue.ConnectionLost))
  {
  }

  /** How an attempt ends without a reply: held for its contents, put off for its setup, or as a lost connection. */
  lemma FailuresMean(s: RelaySystem.Sys, n: nat)
    requires n in s.attempts
    ensures s.attempts[n].stage == RelaySystem.Opening ==>
              RelaySystem.Attempted(s, RelaySystem.Open(n, false), n)
              == RelaySystem.At(s, n, RelaySystem.Done(Queue.HoldBack))
    ensures s.attempts[n].stage == RelaySystem.Envelope ==>
              && RelaySystem.Attempted(s, RelaySystem.FailEnvelope(n, RelaySystem.Setup), n)
                 == RelaySystem.At(s, n, RelaySystem.Done(Queue.Unavailable))
              && RelaySystem.Attempted(s, RelaySystem.FailEnvelope(n, RelaySystem.ContentRefused), n)
                 == RelaySystem.At(s, n, RelaySystem.Done(Queue.HoldBack))
              && RelaySystem.Attempted(s, RelaySystem.FailEnvelope(n, RelaySystem.Broken), n)
                 == RelaySystem.At(s, n, RelaySystem.Done(Queue.ConnectionLost))
    ensures s.attempts[n].stage == RelaySystem.Marked ==>
              RelaySystem.Attempted(s, RelaySystem.FailBody(n), n)
              == RelaySystem.At(s, n, RelaySystem.Done(Queue.HoldBack))
    ensures s.attempts[n].stage in {RelaySystem.Envelope, RelaySystem.Marked, RelaySystem.Dotted} ==>
              RelaySystem.Attempted(s, RelaySystem.Lose(n), n)
              == RelaySystem.At(s, n, RelaySystem.Done(Queue.ConnectionLost))
  {
  }

  /** The guarded clock as the store uses it: an unreadable one is bad input, a jump is told apart. */
  lemma TickedExactly(s: Queue.Store, r: Clock.Reading)
    ensures var (t, now) := Queue.Ticked(s, r);
            && t == s.(rt := s.rt.(clock := t.rt.clock))
            && (now == Err(InvalidInput) <==> r.wall.None?)
            && (now == Err(ClockChanged) <==> r.wall.Some? && t.rt.clock.changed)
            && (now.Ok? ==> Some(now.value) == r.wall)
  {
  }

  /**
   * In every run: once the final dot is answered and the attempt is finished and confirmed, the row carries that
   * answer. A 2xx is a delivery, a 4xx a deferral and a 5xx a failure, unless the row was possibly delivered before,
   * which only a delivery settles; any other answer leaves it uncertain.
   */
  lemma RepliesAreRecorded(policy: Queue.Policy, steps: seq<RelaySystem.Step>, n: nat, code: nat, r: Clock.Reading,
                           guarded: Clock.Reading)
    requires n in RelaySystem.Run(policy, steps).attempts
    requires RelaySystem.Run(policy, steps).attempts[n].stage == RelaySystem.Dotted
    requires r.wall.Some? && guarded.wall.Some?
    ensures var s := RelaySystem.Run(policy, steps);
            var l := s.attempts[n].lease;
            var t := RelaySystem.Finishing(RelaySystem.Attempted(s, RelaySystem.Reply(n, code), n), n, r, guarded,
                                           Confirmed);
            && OnlyDelivery(s.store.db, t.store.db, l.id)
            && Concluded(s.store.db.deliveries[l.id], t.store.db.deliveries[l.id], Body, l, Meaning(code), r.wall.value)
  {
    var s := RelaySystem.Run(policy, steps);
    Guarantees.BodyOnlyAfterMark(policy, steps, n);
    ReplyMeans(s, n, code);
    FinishRecords(s.store, s.attempts[n].lease, Meaning(code), r, guarded);
  }

  // ---------------------------------------------------------------- expiry

  predicate Overdue(db: Db, id: Id, now: int) {
    && id in db.deliveries && db.deliveries[id].route == Relay && db.deliveries[id].expires <= now
    && (db.deliveries[id].state == Pending || db.deliveries[id].state == Deferred)
  }

  predicate Earlier(db: Db, a: Id, b: Id)
    requires a in db.deliveries && b in db.deliveries
  {
    || db.deliveries[a].expires < db.deliveries[b].expires
    || (db.deliveries[a].expires == db.deliveries[b].expires && a < b)
  }

  /** Row `id` is given up: for good, or as possibly delivered. */
  predicate GivenUp(d: Delivery, e: Delivery, now: int) {
    && e.state == (if d.possiblyDelivered then Uncertain else Failed)
    && e.reason == Some(Expired) && e.noticeDue == now
    && e == d.(state := e.state, reason := e.reason, noticeDue := e.noticeDue)
  }

  /** `gone` are overdue rows, and all of them, or the `limit` earliest. */
  ghost predicate Expiring(db: Db, gone: set<Id>, limit: nat, now: int) {
    && (forall id :: id in gone ==> Overdue(db, id, now))
    && |gone| <= limit
    && (forall x, y :: Overdue(db, x, now) && x !in gone && y in gone ==> Earlier(db, y, x))
    && (|gone| < limit ==> forall x :: Overdue(db, x, now) ==> x in gone)
  }

  lemma ExpiryKey(db: Db, now: int, k: Key)
    ensures k in Queue.ExpiryKeys(db, now) <==> Overdue(db, k.id, now) && k.at == db.deliveries[k.id].expires
  {
  }

  lemma FirstExpire(db: Db, limit: nat, now: int)
    ensures var rows := First(Queue.ExpiryKeys(db, now), limit);
            Expiring(db, Ids(rows), limit, now) && |Ids(rows)| == |rows|
  {
    var keys := Queue.ExpiryKeys(db, now);
    var rows := First(keys, limit);
    forall i | 0 <= i < |rows| ensures Overdue(db, rows[i].id, now) && rows[i].at == db.deliveries[rows[i].id].expires {
      assert rows[i] in keys;
      ExpiryKey(db, now, rows[i]);
    }
    IdsCount(rows);
    forall x | Overdue(db, x, now) && x !in Ids(rows)
      ensures Key(db.deliveries[x].expires, x) in keys && Key(db.deliveries[x].expires, x) !in rows
    {
      ExpiryKey(db, now, Key(db.deliveries[x].expires, x));
    }
    forall x, y | Overdue(db, x, now) && x !in Ids(rows) && y in Ids(rows) ensures Earlier(db, y, x) {
      var i :| 0 <= i < |rows| && rows[i].id == y;
      assert Before(rows[i], Key(db.deliveries[x].expires, x));
    }
  }

  /**
   * A confirmed expiry at a trusted time gives up exactly the earliest overdue rows, as many as its limit
   * allows, however distant their next attempt; all other rows and tables stay.
   */
  lemma ExpireExactly(s: Queue.Store, limit: nat, r: Clock.Reading) returns (gone: set<Id>)
    requires 1 <= limit <= Queue.BATCH && Queue.Ticked(s, r).1.Ok?
    ensures var (t, done) := Queue.Expire(s, limit, r, Confirmed);
            var now := Queue.Ticked(s, r).1.value;
            && done == Ok(|gone|) && Expiring(s.db, gone, limit, now)
            && t.db == s.db.(deliveries := t.db.deliveries) && t.db.deliveries.Keys == s.db.deliveries.Keys
            && (forall id :: id in s.db.deliveries && id !in gone ==> t.db.deliveries[id] == s.db.deliveries[id])
            && (forall id :: id in gone ==> GivenUp(s.db.deliveries[id], t.db.deliveries[id], now))
  {
    var now := Queue.Ticked(s, r).1.value;
    var rows := First(Queue.ExpiryKeys(s.db, now), limit);
    FirstExpire(s.db, limit, now);
    gone := Ids(rows);
    if rows == [] {
      assert gone == {};
    }
  }

  // ---------------------------------------------------------------- recovery

  /** A row whose owner is gone goes back: as possibly delivered once its body was marked. */
  predicate Returned(d: Delivery, e: Delivery, phase: Phase, now: nat) {
    && e.state == (if phase == Body || d.possiblyDelivered then Uncertain else Deferred)
    && e.possiblyDelivered == (e.state == Uncertain)
    && e.nextAttempt == now + 30 * 60 * 1000 && e.lastCode.None? && e.token.None? && e.leaseUntil.None?
    && e == d.(state := e.state, possiblyDelivered := e.possiblyDelivered, nextAttempt := e.nextAttempt,
               lastCode := None, token := None, leaseUntil := None)
  }

  predicate Orphaned(s: Queue.Store, live: set<nat>, id: Id) {
    && id in s.db.deliveries && id in s.db.leases
    && s.db.deliveries[id].route == Relay && s.db.deliveries[id].state == Leased
    && id > s.rt.recoveryCursor && !(id in s.rt.active && s.rt.active[id].serial in live)
  }

  lemma OwnerlessAre(s: Queue.Store, limit: nat, live: set<nat>, id: Id)
    requires id in Queue.Ownerless(Queue.Pruned(s, live), limit)
    ensures Orphaned(s, live, id)
  {
    var p := Queue.Pruned(s, live);
    var rows := Queue.RecoveryBatch(p, limit);
    var i :| 0 <= i < |rows| && rows[i].id == id;
    assert rows[i] in Queue.RecoveryKeys(p.db, p.rt.recoveryCursor);
  }

  lemma RecoveredIs(s: Queue.Store, limit: nat, live: set<nat>, r: Clock.Reading)
    requires 1 <= limit <= Queue.BATCH && r.wall.Some? && r.wall.value + Queue.RECOVERY_DELAY_MS <= I64_MAX
    ensures var p := Queue.Pruned(s, live);
            var gone := Queue.Ownerless(p, limit);
            var (t, done) := Queue.Recover(s, limit, live, r, Confirmed);
            && done == Ok(|gone|)
            && t.db == if gone == {} then s.db
                       else Queue.RecoverRows(s.db, gone, r.wall.value + Queue.RECOVERY_DELAY_MS)
  {
    var p := Queue.Pruned(s, live);
    assert Queue.RecoverBatch(p, limit, r.wall.value, Confirmed).1.Ok?;
    Fairness.BatchAnswer(p, limit, r.wall.value, Confirmed);
    if Queue.Ownerless(p, limit) == {} {
      Fairness.NothingWritten(p, limit, r.wall.value, Confirmed);
    } else {
      Fairness.BatchConfirmed(p, limit, r.wall.value, Confirmed);
    }
  }

  /** A confirmed recovery returns only rows without a live owner, each by its phase, and touches nothing else. */
  lemma RecoverRecords(s: Queue.Store, limit: nat, live: set<nat>, r: Clock.Reading) returns (gone: set<Id>)
    requires 1 <= limit <= Queue.BATCH && r.wall.Some? && r.wall.value + 30 * 60 * 1000 <= I64_MAX
    ensures var (t, done) := Queue.Recover(s, limit, live, r, Confirmed);
            && done == Ok(|gone|) && (forall id :: id in gone ==> Orphaned(s, live, id))
            && t.db == s.db.(deliveries := t.db.deliveries, leases := s.db.leases - gone)
            && t.db.deliveries.Keys == s.db.deliveries.Keys
            && (forall id :: id in s.db.deliveries && id !in gone ==> t.db.deliveries[id] == s.db.deliveries[id])
            && (forall id :: id in gone ==>
                  Returned(s.db.deliveries[id], t.db.deliveries[id], s.db.leases[id], r.wall.value))
  {
    gone := Queue.Ownerless(Queue.Pruned(s, live), limit);
    RecoveredIs(s, limit, live, r);
    forall id | id in gone ensures Orphaned(s, live, id) {
      OwnerlessAre(s, limit, live, id);
    }
    if gone == {} {
      assert s.db.leases - gone == s.db.leases;
    }
  }

  // ---------------------------------------------------------------- one lease

  /** A confirmed renewal needs the valid lease and a legal period, and only ever moves its end on. */
  lemma RenewRecords(s: Queue.Store, lease: Queue.Lease, seconds: nat, r: Clock.Reading)
    requires Queue.Ticked(s, r).1.Ok? && RowsOk(s.db)
    ensures var (t, done) := Queue.Renew(s, lease, seconds, r, Confirmed);
            var until := Queue.Ticked(s, r).1.value + seconds * 1000;
            && (done.Ok? <==> 1 <= seconds <= 3600 && Queue.CheckLease(s, lease).Some? && until <= I64_MAX)
            && (done.Err? ==> t.db == s.db)
            && (done.Ok? ==>
                  var d := s.db.deliveries[lease.id];
                  && d.leaseUntil.Some?
                  && t.db == Queue.Put(s.db, lease.id, d.(leaseUntil := t.db.deliveries[lease.id].leaseUntil))
                  && t.db.deliveries[lease.id].leaseUntil
                     == Some(if until < d.leaseUntil.value then d.leaseUntil.value else until))
  {
    if Queue.CheckLease(s, lease).Some? {
      assert RowOk(ViewOf(s.db, lease.id));
    }
  }

  /** A confirmed body mark needs the valid lease and changes its phase alone. */
  lemma MarkRecords(s: Queue.Store, lease: Queue.Lease)
    ensures var (t, done) := Queue.MarkBody(s, lease, Confirmed);
            && (done.Ok? <==> Queue.CheckLease(s, lease).Some?)
            && t == (if done.Ok? then s.(db := s.db.(leases := s.db.leases[lease.id := Body])) else s)
  {
  }

  // ---------------------------------------------------------------- administration

  predicate Relayed(db: Db, id: Id) { id in db.deliveries && db.deliveries[id].route == Relay }

  /** One row is rewritten and the action is logged. */
  ghost predicate Logged(db: Db, next: Db, id: Id, action: AdminAction, dup: bool, extend: bool) {
    && OnlyDelivery(db, next, id) && next.leases == db.leases
    && next.admin
       == db.admin + [AdminEvent(id, action, db.deliveries[id].state, next.deliveries[id].state, dup, extend)]
  }

  /** A confirmed hold: refused exactly for rows that are closed, leased or done. */
  lemma HoldRecords(s: Queue.Store, id: Id, r: Clock.Reading)
    requires r.wall.Some?
    ensures var (t, done) := Queue.HoldRow(s, id, r, Confirmed);
            && (done.Ok? <==> Relayed(s.db, id) && s.db.deliveries[id].closedAt.None?
                              && s.db.deliveries[id].state !in {Leased, Delivered, Failed})
            && (done.Err? ==> t == s)
            && (done.Ok? ==>
                  var d := s.db.deliveries[id];
                  && Logged(s.db, t.db, id, HoldAction, false, false)
                  && t.db.deliveries[id]
                     == d.(state := Hold, reason := Some(Manual),
                           possiblyDelivered := d.possiblyDelivered || d.state == Uncertain))
  {
  }

  predicate Retriable(d: Delivery, dup: bool, extend: bool, now: nat, maxAge: nat) {
    && d.closedAt.None?
    && (d.state == Deferred || (dup && (d.state == Uncertain || d.state == Hold)))
    && (d.expires > now || (extend && now + maxAge * 1000 <= I64_MAX))
  }

  /** A confirmed retry: due at once, with a new life of full age if it was over. */
  lemma RetryRecords(s: Queue.Store, id: Id, dup: bool, extend: bool, r: Clock.Reading)
    requires Queue.Ticked(s, r).1.Ok?
    ensures var (t, done) := Queue.Retry(s, id, dup, extend, r, Confirmed);
            var now := Queue.Ticked(s, r).1.value;
            && (done.Ok? <==> Relayed(s.db, id) && s.db.deliveries[id].message in s.db.queued
                              && Retriable(s.db.deliveries[id], dup, extend, now,
                                           s.db.queued[s.db.deliveries[id].message].maxAge))
            && (done.Err? ==> t.db == s.db)
            && (done.Ok? ==>
                  var d := s.db.deliveries[id];
                  && Logged(s.db, t.db, id, RetryAction, dup, extend)
                  && t.db.deliveries[id]
                     == d.(state := Pending, nextAttempt := now, reason := None,
                           expires := if d.expires > now then d.expires
                                      else now + s.db.queued[d.message].maxAge * 1000))
  {
  }

  /** A confirmed closing: only of what may have been delivered and is still open. */
  lemma CloseRecords(s: Queue.Store, id: Id, note: string, r: Clock.Reading)
    requires r.wall.Some?
    ensures var (t, done) := Queue.CloseUnknown(s, id, note, r, Confirmed);
            && (done.Ok? <==> Queue.ValidNote(note) && Relayed(s.db, id) && s.db.deliveries[id].closedAt.None?
                              && s.db.deliveries[id].possiblyDelivered
                              && s.db.deliveries[id].state in {Uncertain, Hold})
            && (done.Err? ==> t == s)
            && (done.Ok? ==>
                  && Logged(s.db, t.db, id, CloseAction, false, false)
                  && t.db.deliveries[id] == s.db.deliveries[id].(state := Uncertain, closedAt := Some(r.wall.value)))
  {
  }
}
