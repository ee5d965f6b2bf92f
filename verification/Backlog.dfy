/**
 * Calls of `queue_claim` on a standing backlog (crates/store/src/queue.rs): each ticks the clock, runs a
 * recovery batch and an expiry batch, and then scans; still every due row is served in bounded time.
 */
module Backlog {
  import opened Wrappers
  import opened Tables
  import opened Ordering
  import opened Fairness
  import Clock
  import Growth
  import Moves
  import Queue
  import Transactions

  /** One call and everything it is given. */
  datatype Call = Call(store: Queue.Store, policy: Queue.Policy, limit: nat, live: set<nat>, w: Queue.Weather,
                       draws: seq<Queue.Draw>, serial: nat)

  function Made(c: Call): (Queue.Store, Result<seq<Queue.Lease>, StoreError>) {
    Queue.Claim(c.store, c.policy, c.limit, c.live, c.w, c.draws, c.serial)
  }

  function Recovered(c: Call): Queue.Store {
    Queue.Recover(Queue.Ticked(c.store, c.w.first).0, Queue.BATCH, c.live, c.w.recovery, c.w.recoveryFate).0
  }

  /** The store once the call has ticked, recovered and expired: what its scan starts from. */
  function Scanning(c: Call): Queue.Store { Queue.Expire(Recovered(c), Queue.BATCH, c.w.expiry, c.w.expiryFate).0 }

  function RoundOf(c: Call, now: nat): Round {
    Round(Scanning(c), Queue.ClaimContext(Scanning(c), c.policy, c.limit, c.live, now, c.draws, c.serial))
  }

  /** A call at this time that is answered, confirmed throughout, and finds a free slot. */
  predicate CallAt(c: Call, now: nat) {
    && c.w.first.wall == Some(now) && c.w.recovery.wall == Some(now) && c.w.expiry.wall == Some(now)
    && c.w.fate == Confirmed && Made(c).1.Ok? && Queue.Slots(Scanning(c), c.policy, c.limit) >= 1
  }

  /** Between two calls nothing but the owners changes: the rows and the scan cursor stay. */
  predicate Resumed(a: Call, b: Call) {
    b.store.db == Made(a).0.db && b.store.rt.readyCursor == Made(a).0.rt.readyCursor
  }

  ghost predicate Calls(calls: seq<Call>, now: nat) {
    && (forall i :: 0 <= i < |calls| ==> CallAt(calls[i], now))
    && (forall i, j :: 0 <= i && j == i + 1 < |calls| ==> Resumed(calls[i], calls[j]))
  }

  // ---------------------------------------------------------------- calls are rounds

  lemma TickIs(s: Queue.Store, r: Clock.Reading, now: nat)
    requires r.wall == Some(now) && Queue.Ticked(s, r).1.Ok?
    ensures Queue.Ticked(s, r).1 == Ok(now) && Queue.Ticked(s, r).0.db == s.db
    ensures Queue.Ticked(s, r).0.rt == s.rt.(clock := Queue.Ticked(s, r).0.rt.clock)
  {
  }

  lemma ClaimParts(c: Call)
    requires Made(c).1.Ok?
    ensures c.policy.Valid() && 1 <= c.limit <= Queue.BATCH && Queue.Ticked(c.store, c.w.first).1.Ok?
    ensures var o := Queue.Order(c.policy, c.limit, c.live, Queue.Ticked(c.store, c.w.first).1.value, c.draws,
                                 c.serial);
            Made(c) == Queue.ThenExpire(Queue.Recover(Queue.Ticked(c.store, c.w.first).0, Queue.BATCH, c.live,
                                                      c.w.recovery,
                                                      c.w.recoveryFate), o, c.w)
  {
  }

  lemma ExpireParts(recovered: (Queue.Store, Result<nat, StoreError>), o: Queue.Order, w: Queue.Weather)
    requires o.policy.Valid() && Queue.ThenExpire(recovered, o, w).1.Ok?
    ensures var t := Queue.Expire(recovered.0, Queue.BATCH, w.expiry, w.expiryFate).0;
            Queue.ThenExpire(recovered, o, w)
            == Queue.ClaimDue(t, Queue.ClaimContext(t, o.policy, o.limit, o.live, o.now, o.draws, o.serial), w.fate)
  {
  }

  /** An answered call is the claim proper on the store its batches left. */
  lemma CallIs(c: Call, now: nat)
    requires CallAt(c, now)
    ensures c.policy.Valid() && Made(c) == Queue.ClaimDue(Scanning(c), RoundOf(c, now).ctx, Confirmed)
  {
    ClaimParts(c);
    TickIs(c.store, c.w.first, now);
    ExpireParts(Queue.Recover(Queue.Ticked(c.store, c.w.first).0, Queue.BATCH, c.live, c.w.recovery, c.w.recoveryFate),
                Queue.Order(c.policy, c.limit, c.live, now, c.draws, c.serial), c.w);
  }

  lemma CallReady(c: Call, now: nat)
    requires CallAt(c, now)
    ensures Fairness.Ready(RoundOf(c, now), now)
  {
    CallIs(c, now);
    Queue.ClaimDueIs(Scanning(c), RoundOf(c, now).ctx, Confirmed);
  }

  /** The batches of a call add nothing to the backlog and keep the scan cursor. */
  lemma BatchesAddNothing(c: Call, now: nat)
    requires CallAt(c, now)
    ensures Due(Scanning(c).db, now) <= Due(c.store.db, now) && Scanning(c).rt.readyCursor == c.store.rt.readyCursor
  {
    ClaimParts(c);
    TickIs(c.store, c.w.first, now);
    RecoveryAddsNothing(Queue.Ticked(c.store, c.w.first).0, Queue.BATCH, c.live, c.w.recovery, c.w.recoveryFate, now);
    ExpiryAddsNothing(Recovered(c), Queue.BATCH, c.w.expiry, c.w.expiryFate, now);
  }

  lemma ClaimAddsNothing(a: Round, now: nat)
    requires Fairness.Ready(a, now)
    ensures Due(Queue.ClaimDue(a.store, a.ctx, Confirmed).0.db, now) <= Due(a.store.db, now)
  {
    Queue.ClaimDueIs(a.store, a.ctx, Confirmed);
    ScanAddsNothing(Queue.Claimed(a.store.db, [], 0), Rows(a), a.ctx);
  }

  /** Two calls one after the other are two rounds of the scan. */
  lemma CallsFollow(a: Call, b: Call, now: nat)
    requires CallAt(a, now) && CallAt(b, now) && Resumed(a, b)
    ensures Fairness.Ready(RoundOf(a, now), now) && Fairness.Ready(RoundOf(b, now), now)
            && Follows(RoundOf(a, now), RoundOf(b, now), now)
  {
    CallReady(a, now);
    CallReady(b, now);
    CallIs(a, now);
    ClaimAddsNothing(RoundOf(a, now), now);
    BatchesAddNothing(b, now);
  }

  // ---------------------------------------------------------------- what happens to a row

  lemma DueRow(db: Db, now: int, k: Key)
    ensures k in Due(db, now)
            <==> k.id in db.deliveries && Queue.Waiting(db.deliveries[k.id]) && db.deliveries[k.id].nextAttempt <= now
                 && k.at == db.deliveries[k.id].nextAttempt
  {
  }

  /** The row of `k` is the same in both. */
  predicate SameRow(db: Db, next: Db, k: Key) {
    k.id in db.deliveries && k.id in next.deliveries && next.deliveries[k.id] == db.deliveries[k.id]
  }

  lemma RecoverRowsSpare(s: Queue.Store, limit: nat, next: int, k: Key)
    requires k.id in s.db.deliveries && Queue.Waiting(s.db.deliveries[k.id])
    ensures SameRow(s.db, Queue.RecoverRows(s.db, Queue.Ownerless(s, limit), next), k)
  {
    if k.id in Queue.Ownerless(s, limit) {
      Transactions.GoneRows(s, limit, k.id);
    }
  }

  lemma RecoverySpares(s: Queue.Store, limit: nat, live: set<nat>, r: Clock.Reading, fate: Fate, k: Key)
    requires 1 <= limit <= Queue.BATCH && r.wall.Some?
    requires k.id in s.db.deliveries && Queue.Waiting(s.db.deliveries[k.id])
    ensures SameRow(s.db, Queue.Recover(s, limit, live, r, fate).0.db, k)
  {
    var p := Queue.Pruned(s, live);
    Transactions.RecoverBatchWrites(p, limit, r.wall.value, fate);
    RecoverRowsSpare(p, limit, r.wall.value + Queue.RECOVERY_DELAY_MS, k);
  }

  lemma NotExpiring(db: Db, limit: nat, now: nat, k: Key)
    requires k.id in db.deliveries && db.deliveries[k.id].expires > now
    ensures k.id !in Ids(First(Queue.ExpiryKeys(db, now), limit))
  {
    var keys := Queue.ExpiryKeys(db, now);
    var rows := First(keys, limit);
    forall i | 0 <= i < |rows| ensures rows[i].id != k.id {
      assert rows[i] in keys;
    }
  }

  lemma ExpiryWrites(s: Queue.Store, limit: nat, r: Clock.Reading, fate: Fate, now: nat)
    requires r.wall == Some(now)
    ensures var t := Queue.Expire(s, limit, r, fate).0;
            t.db == s.db || t.db == Queue.ExpireRows(s.db, Ids(First(Queue.ExpiryKeys(s.db, now), limit)), now)
  {
    if Queue.Ticked(s, r).1.Ok? {
      TickIs(s, r, now);
    }
  }

  lemma ExpirySpares(s: Queue.Store, limit: nat, r: Clock.Reading, fate: Fate, now: nat, k: Key)
    requires r.wall == Some(now) && k.id in s.db.deliveries && s.db.deliveries[k.id].expires > now
    ensures SameRow(s.db, Queue.Expire(s, limit, r, fate).0.db, k)
  {
    NotExpiring(s.db, limit, now, k);
    ExpiryWrites(s, limit, r, fate, now);
  }

  /** A due row that has not expired reaches the scan unchanged. */
  lemma BatchesSpare(c: Call, now: nat, k: Key)
    requires CallAt(c, now) && k in Due(c.store.db, now) && k.id in c.store.db.deliveries
    requires c.store.db.deliveries[k.id].expires > now
    ensures SameRow(c.store.db, Scanning(c).db, k) && k in Due(Scanning(c).db, now)
  {
    ClaimParts(c);
    TickIs(c.store, c.w.first, now);
    DueRow(c.store.db, now, k);
    RecoverySpares(Queue.Ticked(c.store, c.w.first).0, Queue.BATCH, c.live, c.w.recovery, c.w.recoveryFate, k);
    ExpirySpares(Recovered(c), Queue.BATCH, c.w.expiry, c.w.expiryFate, now, k);
    DueRow(Scanning(c).db, now, k);
  }

  lemma {:induction false} ScanSpares(c: Queue.Claimed, rows: seq<Key>, ctx: Queue.Context, f: Queue.Claimed)
    requires ctx.policy.Valid() && Queue.Scan(c, rows, ctx) == Ok(f)
    ensures c.seen <= f.seen <= c.seen + |rows| && Unmoved(c.tx, f.tx, rows, f.seen - c.seen)
    decreases |rows|
  {
    Queue.ScanSeesWithinBatch(c, rows, ctx);
    if f.seen > c.seen {
      var next := ScanTurns(c, rows, ctx, f);
      ScanSpares(next, rows[1..], ctx, f);
      UnmovedLater(c.tx, next.tx, f.tx, rows, f.seen - c.seen);
    } else {
      ScanStops(c, rows, ctx, f);
    }
  }

  lemma ScanStops(c: Queue.Claimed, rows: seq<Key>, ctx: Queue.Context, f: Queue.Claimed)
    requires ctx.policy.Valid() && Queue.Scan(c, rows, ctx) == Ok(f) && f.seen == c.seen
    ensures f == c
  {
    if rows != [] && |c.leases| < ctx.available {
      ScanSeesOne(c, rows, ctx);
    }
  }

  lemma UnseenId(s: Queue.Store, now: nat, n: nat, k: Key)
    requires k in Due(s.db, now) && n <= |Queue.ReadyBatch(s, now)| && k !in Queue.ReadyBatch(s, now)[..n]
    ensures forall i :: 0 <= i < n ==> Queue.ReadyBatch(s, now)[i].id != k.id
  {
    var rows := Queue.ReadyBatch(s, now);
    Moves.ReadyBatchWaits(s, now);
    DueRow(s.db, now, k);
    forall i | 0 <= i < n ensures rows[i].id != k.id {
      assert rows[i] in rows && rows[..n][i] == rows[i];
    }
  }

  /** A due row the scan has not come to is left as it is. */
  lemma ClaimSpares(a: Round, now: nat, k: Key)
    requires Fairness.Ready(a, now) && k in Due(a.store.db, now) && k !in Seen(a)
    ensures SameRow(a.store.db, Queue.ClaimDue(a.store, a.ctx, Confirmed).0.db, k)
  {
    var f := ScanOf(a).value;
    ScanSpares(Queue.Claimed(a.store.db, [], 0), Rows(a), a.ctx, f);
    UnseenId(a.store, now, f.seen, k);
    DueRow(a.store.db, now, k);
    Queue.ClaimDueIs(a.store, a.ctx, Confirmed);
  }

  // ---------------------------------------------------------------- the theorem

  /** The call has dealt with the row: it has expired, or it was examined and leased or had to be passed over. */
  ghost predicate Handled(c: Call, now: nat, k: Key)
    requires CallAt(c, now)
  {
    CallReady(c, now);
    && k.id in c.store.db.deliveries
    && (|| c.store.db.deliveries[k.id].expires <= now
        || (k in Seen(RoundOf(c, now))
            && Served(c.store.db.deliveries[k.id], k.id, ScanOf(RoundOf(c, now)).value, RoundOf(c, now).ctx)))
  }

  lemma CallKeepsLinks(c: Call, now: nat)
    requires CallAt(c, now) && Transactions.DbOk(c.store.db)
    ensures Transactions.DbOk(Scanning(c).db) && Transactions.DbOk(Made(c).0.db)
  {
    ClaimParts(c);
    TickIs(c.store, c.w.first, now);
    Transactions.RecoverSound(Queue.Ticked(c.store, c.w.first).0, Queue.BATCH, c.live, c.w.recovery, c.w.recoveryFate,
                              {});
    Transactions.ExpireSound(Recovered(c), Queue.BATCH, c.w.expiry, c.w.expiryFate, {});
    ScanKeepsLinks(c, now);
  }

  lemma ScanKeepsLinks(c: Call, now: nat)
    requires CallAt(c, now) && Transactions.DbOk(Scanning(c).db)
    ensures Transactions.DbOk(Made(c).0.db)
  {
    CallReady(c, now);
    CallIs(c, now);
    var a := RoundOf(c, now);
    Queue.ClaimDueIs(a.store, a.ctx, Confirmed);
    Moves.ClaimScans(a.store, a.ctx);
    Transactions.ScannedSound(a.store.db, ScanOf(a).value, a.ctx, {});
  }

  lemma SeenIsHandled(c: Call, now: nat, k: Key)
    requires CallAt(c, now) && Transactions.DbOk(c.store.db) && k in Due(c.store.db, now)
             && k.id in c.store.db.deliveries
    requires c.store.db.deliveries[k.id].expires > now && Fairness.Ready(RoundOf(c, now), now)
             && k in Seen(RoundOf(c, now))
    ensures Handled(c, now, k)
  {
    assert Growth.Linked(Scanning(c).db) by {
      CallKeepsLinks(c, now);
    }
    BatchesSpare(c, now, k);
    ReachedIsServed(RoundOf(c, now), now, k);
  }

  /** A row the call has not come to is due for the next one. */
  lemma UnseenStaysDue(c: Call, now: nat, k: Key)
    requires CallAt(c, now) && k in Due(c.store.db, now) && k.id in c.store.db.deliveries
    requires c.store.db.deliveries[k.id].expires > now && Fairness.Ready(RoundOf(c, now), now)
             && k !in Seen(RoundOf(c, now))
    ensures SameRow(c.store.db, Made(c).0.db, k) && k in Due(Made(c).0.db, now)
  {
    BatchesSpare(c, now, k);
    ClaimSpares(RoundOf(c, now), now, k);
    CallIs(c, now);
    DueRow(c.store.db, now, k);
    DueRow(Made(c).0.db, now, k);
  }

  function Steps(c: Call, now: nat, k: Key): nat {
    Distance(Due(Scanning(c).db, now), Scanning(c).rt.readyCursor, k)
  }

  lemma {:induction false} HandledFrom(calls: seq<Call>, now: nat, k: Key, i: nat)
    requires Calls(calls, now) && i < |calls| && Transactions.DbOk(calls[i].store.db)
    requires k in Due(calls[i].store.db, now) && Steps(calls[i], now, k) <= |calls| - i
    ensures exists j :: && i <= j < |calls| && Handled(calls[j], now, k)
                        && SameRow(calls[i].store.db, calls[j].store.db, k)
    decreases |calls| - i
  {
    var c := calls[i];
    CallReady(c, now);
    DueRow(c.store.db, now, k);
    if c.store.db.deliveries[k.id].expires <= now {
      assert Handled(calls[i], now, k);
    } else {
      BatchesSpare(c, now, k);
      if i + 1 == |calls| {
        SeenAtDistanceOne(RoundOf(c, now), now, k);
      }
      if k in Seen(RoundOf(c, now)) {
        SeenIsHandled(c, now, k);
      } else {
        assert Resumed(calls[i], calls[i + 1]);
        HandledNext(c, calls[i + 1], now, k);
        HandledFrom(calls, now, k, i + 1);
        var j :| i + 1 <= j < |calls| && Handled(calls[j], now, k)
                 && SameRow(calls[i + 1].store.db, calls[j].store.db, k);
        assert SameRow(calls[i].store.db, calls[j].store.db, k);
      }
    }
  }

  /** One call on: the database is sound, the row is due, and the scan is closer. */
  lemma HandledNext(c: Call, b: Call, now: nat, k: Key)
    requires CallAt(c, now) && CallAt(b, now) && Resumed(c, b) && Transactions.DbOk(c.store.db)
    requires k in Due(c.store.db, now) && k.id in c.store.db.deliveries && c.store.db.deliveries[k.id].expires > now
    requires Fairness.Ready(RoundOf(c, now), now) && k !in Seen(RoundOf(c, now))
    ensures Transactions.DbOk(b.store.db) && k in Due(b.store.db, now) && Steps(b, now, k) < Steps(c, now, k)
    ensures SameRow(c.store.db, b.store.db, k)
  {
    CallKeepsLinks(c, now);
    UnseenStaysDue(c, now, k);
    BatchesSpare(b, now, k);
    CallsFollow(c, b, now);
    RoundAdvances(RoundOf(c, now), RoundOf(b, now), now, k);
  }

  /**
   * On a backlog of N due rows at a fixed time, N + 1 calls of `queue_claim` that find a free slot have dealt
   * with each of them: leased it, or met its live owner, its expiry, its used-up counters or its full domain.
   * So no saturated domain and no run of refused rows can hide another row. Until then the row stays as it was.
   */
  lemma ClaimsServeEveryDueRow(calls: seq<Call>, now: nat, k: Key)
    requires Calls(calls, now) && calls != [] && Transactions.DbOk(calls[0].store.db)
    requires k in Due(calls[0].store.db, now) && |calls| > |Due(calls[0].store.db, now)|
    ensures exists j :: && 0 <= j < |calls| && Handled(calls[j], now, k)
                        && SameRow(calls[0].store.db, calls[j].store.db, k)
  {
    BatchesAddNothing(calls[0], now);
    Subset(Due(Scanning(calls[0]).db, now), Due(calls[0].store.db, now));
    DistanceBound(Due(Scanning(calls[0]).db, now), Scanning(calls[0]).rt.readyCursor, k);
    HandledFrom(calls, now, k, 0);
  }
}
