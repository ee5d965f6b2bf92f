/**
 * Progress of the bounded scans: every due row is examined after boundedly many claims, whatever
 * its neighbours do, and recovery leaves no leased row behind (crates/store/src/queue.rs).
 */
module Fairness {
  import opened Wrappers
  import opened Tables
  import opened Ordering
  import opened Moves
  import Addresses
  import Clock
  import Growth
  import Queue
  import Transactions

  // ---------------------------------------------------------------- the due keys and the cursor

  function Due(db: Db, now: int): set<Key> { Queue.ReadyKeys(db, now, None) }

  function Above(keys: set<Key>, cursor: Option<Key>): set<Key> {
    set k | k in keys && (cursor.None? || Before(cursor.value, k))
  }

  function UpTo(keys: set<Key>, k: Key): set<Key> { set x | x in keys && (x == k || Before(x, k)) }

  lemma ReadyIsAbove(db: Db, now: int, cursor: Option<Key>)
    ensures Queue.ReadyKeys(db, now, cursor) == Above(Due(db, now), cursor)
  {
    forall k ensures k in Queue.ReadyKeys(db, now, cursor) <==> k in Above(Due(db, now), cursor) {
      if k in Due(db, now) {
        var id :| id in db.deliveries && Queue.Waiting(db.deliveries[id]) && db.deliveries[id].nextAttempt <= now
                  && k == Key(db.deliveries[id].nextAttempt, id);
      }
    }
  }

  /** How many claims it can take until the scan reaches `k`. */
  function Distance(keys: set<Key>, cursor: Option<Key>, k: Key): nat {
    if cursor.None? || Before(cursor.value, k) then |UpTo(Above(keys, cursor), k)|
    else |Above(keys, cursor)| + 1 + |UpTo(keys, k)|
  }

  lemma Subset<T>(a: set<T>, b: set<T>)
    requires a <= b
    ensures |a| <= |b|
  {
    assert b == a + (b - a);
  }

  lemma ProperSubset<T>(a: set<T>, b: set<T>, x: T)
    requires a <= b && x in b && x !in a
    ensures |a| < |b|
  {
    Subset(a, b - {x});
  }

  lemma DistanceBound(keys: set<Key>, cursor: Option<Key>, k: Key)
    ensures Distance(keys, cursor, k) <= |keys| + 1
  {
    var ahead, behind := Above(keys, cursor), UpTo(keys, k);
    if cursor.None? || Before(cursor.value, k) {
      Subset(UpTo(ahead, k), keys);
    } else {
      assert ahead !! behind;
      assert |ahead + behind| == |ahead| + |behind|;
      Subset(ahead + behind, keys);
    }
  }

  // ---------------------------------------------------------------- one round

  /** A claim on the store as it stands once the dead references are pruned. */
  datatype Round = Round(store: Queue.Store, ctx: Queue.Context)

  predicate Ready(a: Round, now: nat) {
    a.ctx.policy.Valid() && a.ctx.now == now && a.ctx.available >= 1 && ScanOf(a).Ok?
  }

  function Rows(a: Round): seq<Key> { Queue.ReadyBatch(a.store, a.ctx.now) }

  function ScanOf(a: Round): Result<Queue.Claimed, StoreError>
    requires a.ctx.policy.Valid()
  {
    Queue.Scan(Queue.Claimed(a.store.db, [], 0), Rows(a), a.ctx)
  }

  /** The keys this claim looks at. */
  function Seen(a: Round): seq<Key>
    requires a.ctx.policy.Valid() && ScanOf(a).Ok?
  {
    Queue.ScanSeesWithinBatch(Queue.Claimed(a.store.db, [], 0), Rows(a), a.ctx);
    Rows(a)[..ScanOf(a).value.seen]
  }

  /** The next claim resumes at the recorded cursor; in between, due rows may leave but none arrives. */
  predicate Follows(a: Round, b: Round, now: nat)
    requires Ready(a, now)
  {
    && b.store.rt.readyCursor == Queue.ClaimDue(a.store, a.ctx, Confirmed).0.rt.readyCursor
    && Due(b.store.db, now) <= Due(a.store.db, now)
  }

  lemma ScanSeesOne(c: Queue.Claimed, rows: seq<Key>, ctx: Queue.Context)
    requires ctx.policy.Valid() && rows != [] && |c.leases| < ctx.available && Queue.Scan(c, rows, ctx).Ok?
    ensures Queue.Scan(c, rows, ctx).value.seen >= c.seen + 1
  {
    var next := Queue.Examine(c, rows[0].id, ctx);
    ExamineTouchesOne(c, rows[0].id, ctx);
    Queue.ScanSeesWithinBatch(next.value, rows[1..], ctx);
  }

  lemma SeenLength(a: Round)
    requires a.ctx.policy.Valid() && ScanOf(a).Ok?
    ensures |Seen(a)| == ScanOf(a).value.seen
  {
    Queue.ScanSeesWithinBatch(Queue.Claimed(a.store.db, [], 0), Rows(a), a.ctx);
  }

  lemma SeesOne(a: Round, now: nat)
    requires Ready(a, now) && Rows(a) != []
    ensures |Seen(a)| >= 1
  {
    SeenLength(a);
    ScanSeesOne(Queue.Claimed(a.store.db, [], 0), Rows(a), a.ctx);
  }

  lemma RowsAre(a: Round, now: nat)
    requires a.ctx.now == now
    ensures Rows(a) == First(Above(Due(a.store.db, now), a.store.rt.readyCursor), Queue.BATCH)
  {
    ReadyIsAbove(a.store.db, now, a.store.rt.readyCursor);
  }

  lemma ClaimCursor(a: Round, now: nat)
    requires Ready(a, now)
    ensures ScanOf(a).value.seen <= |Rows(a)| && Seen(a) == Rows(a)[..ScanOf(a).value.seen]
    ensures Queue.ClaimDue(a.store, a.ctx, Confirmed).0.rt.readyCursor
            == Queue.NextCursor(Rows(a), ScanOf(a).value.seen)
  {
    Queue.ClaimDueIs(a.store, a.ctx, Confirmed);
  }

  /** Keys behind the seen part of a batch come after its last key. */
  lemma BehindSeen(rows: seq<Key>, n: nat, k: Key)
    requires 0 < n <= |rows| && k in rows && k !in rows[..n]
    requires forall i, j :: 0 <= i < j < |rows| ==> Before(rows[i], rows[j])
    ensures Before(rows[n - 1], k)
  {
    var i :| 0 <= i < |rows| && rows[i] == k;
    assert forall j :: 0 <= j < n ==> rows[..n][j] == rows[j];
  }

  /** The scan moves forward past at least one key, or has seen everything ahead and starts over. */
  lemma CursorMoves(a: Round, now: nat) returns (cursor: Option<Key>)
    requires Ready(a, now)
    ensures cursor == Queue.ClaimDue(a.store, a.ctx, Confirmed).0.rt.readyCursor
    ensures var ahead := Above(Due(a.store.db, now), a.store.rt.readyCursor);
            if cursor.None? then forall k :: k in ahead ==> k in Seen(a)
            else cursor.value in ahead && forall k :: k in ahead && k !in Seen(a) ==> Before(cursor.value, k)
  {
    RowsAre(a, now);
    ClaimCursor(a, now);
    if Rows(a) != [] {
      SeesOne(a, now);
    }
    cursor := NextAfter(Above(Due(a.store.db, now), a.store.rt.readyCursor), Rows(a), ScanOf(a).value.seen);
  }

  /** ... as a fact about one batch of the keys ahead. */
  lemma NextAfter(ahead: set<Key>, rows: seq<Key>, n: nat) returns (cursor: Option<Key>)
    requires rows == First(ahead, Queue.BATCH) && n <= |rows| && (rows != [] ==> n >= 1)
    ensures cursor == Queue.NextCursor(rows, n)
    ensures if cursor.None? then forall k :: k in ahead ==> k in rows[..n]
            else cursor.value in ahead && forall k :: k in ahead && k !in rows[..n] ==> Before(cursor.value, k)
  {
    cursor := Queue.NextCursor(rows, n);
    assert rows[..|rows|] == rows;
    if cursor.Some? {
      assert cursor.value == rows[n - 1] && rows[n - 1] in rows;
      forall k | k in ahead && k !in rows[..n] ensures Before(cursor.value, k) {
        if k in rows {
          BehindSeen(rows, n, k);
        }
      }
    }
  }

  lemma DistanceShrinks(keys: set<Key>, next: set<Key>, cursor: Option<Key>, cursor': Option<Key>, k: Key)
    requires next <= keys && k in next
    requires cursor'.Some? ==> cursor'.value in Above(keys, cursor)
    requires cursor'.None? ==> k !in Above(keys, cursor)
    requires cursor'.Some? && k in Above(keys, cursor) ==> Before(cursor'.value, k)
    ensures Distance(next, cursor', k) < Distance(keys, cursor, k)
  {
    if cursor'.None? {
      Subset(UpTo(Above(next, cursor'), k), UpTo(keys, k));
    } else if cursor.None? || Before(cursor.value, k) {
      ProperSubset(UpTo(Above(next, cursor'), k), UpTo(Above(keys, cursor), k), cursor'.value);
    } else {
      ProperSubset(Above(next, cursor'), Above(keys, cursor), cursor'.value);
      Subset(UpTo(next, k), UpTo(keys, k));
    }
  }

  lemma RoundAdvances(a: Round, b: Round, now: nat, k: Key)
    requires Ready(a, now) && Follows(a, b, now) && k in Due(b.store.db, now) && k !in Seen(a)
    ensures Distance(Due(b.store.db, now), b.store.rt.readyCursor, k)
            < Distance(Due(a.store.db, now), a.store.rt.readyCursor, k)
  {
    var cursor := CursorMoves(a, now);
    DistanceShrinks(Due(a.store.db, now), Due(b.store.db, now), a.store.rt.readyCursor, cursor, k);
  }

  // ---------------------------------------------------------------- many rounds

  ghost predicate Rounds(rounds: seq<Round>, now: nat) {
    && (forall i :: 0 <= i < |rounds| ==> Ready(rounds[i], now))
    && (forall i :: 0 <= i < |rounds| - 1 ==> Follows(rounds[i], rounds[i + 1], now))
  }

  /** `k` was examined by a claim, or was no longer due when that claim began. */
  ghost predicate Reached(rounds: seq<Round>, now: nat, k: Key)
    requires Rounds(rounds, now)
  {
    exists i :: 0 <= i < |rounds| && (k in Seen(rounds[i]) || k !in Due(rounds[i].store.db, now))
  }

  lemma DistancePositive(keys: set<Key>, cursor: Option<Key>, k: Key)
    requires k in keys
    ensures Distance(keys, cursor, k) >= 1
  {
    if cursor.None? || Before(cursor.value, k) {
      assert k in UpTo(Above(keys, cursor), k);
    }
  }

  lemma SeenAtDistanceOne(a: Round, now: nat, k: Key)
    requires Ready(a, now) && k in Due(a.store.db, now)
    requires Distance(Due(a.store.db, now), a.store.rt.readyCursor, k) <= 1
    ensures k in Seen(a)
  {
    var keys := Due(a.store.db, now);
    var cursor := CursorMoves(a, now);
    if k !in Seen(a) {
      DistanceShrinks(keys, keys, a.store.rt.readyCursor, cursor, k);
      DistancePositive(keys, cursor, k);
    }
  }

  lemma {:induction false} ReachedFrom(rounds: seq<Round>, now: nat, k: Key, i: nat)
    requires Rounds(rounds, now) && i < |rounds|
    requires Distance(Due(rounds[i].store.db, now), rounds[i].store.rt.readyCursor, k) <= |rounds| - i
    ensures Reached(rounds, now, k)
    decreases |rounds| - i
  {
    var a := rounds[i];
    assert Ready(a, now);
    if k in Due(a.store.db, now) && k !in Seen(a) {
      if i + 1 == |rounds| {
        SeenAtDistanceOne(a, now, k);
      } else if k in Due(rounds[i + 1].store.db, now) {
        assert Follows(rounds[i], rounds[i + 1], now);
        RoundAdvances(a, rounds[i + 1], now, k);
        ReachedFrom(rounds, now, k, i + 1);
      }
    }
  }

  /**
   * On a backlog of N due rows every one of them is reached within N + 1 claims that find a free
   * slot: no saturated domain and no run of refused rows can hide another row.
   */
  lemma EveryDueRowIsReached(rounds: seq<Round>, now: nat, k: Key)
    requires Rounds(rounds, now) && rounds != [] && |rounds| > |Due(rounds[0].store.db, now)|
    ensures Reached(rounds, now, k)
  {
    DistanceBound(Due(rounds[0].store.db, now), rounds[0].store.rt.readyCursor, k);
    ReachedFrom(rounds, now, k, 0);
  }

  // ---------------------------------------------------------------- nothing becomes due at a fixed time

  lemma NothingNewDue(db: Db, next: Db, now: int)
    requires next.deliveries.Keys <= db.deliveries.Keys
    requires forall id :: id in next.deliveries && Queue.Waiting(next.deliveries[id])
                          && next.deliveries[id].nextAttempt <= now ==>
               && Queue.Waiting(db.deliveries[id])
               && db.deliveries[id].nextAttempt == next.deliveries[id].nextAttempt
    ensures Due(next, now) <= Due(db, now)
  {
    forall k | k in Due(next, now) ensures k in Due(db, now) {
      var id :| id in next.deliveries && Queue.Waiting(next.deliveries[id]) && next.deliveries[id].nextAttempt <= now
                && k == Key(next.deliveries[id].nextAttempt, id);
      assert id in db.deliveries;
    }
  }

  lemma ExpiredNotDue(db: Db, ids: set<Id>, at: int, now: int)
    ensures Due(Queue.ExpireRows(db, ids, at), now) <= Due(db, now)
  {
    NothingNewDue(db, Queue.ExpireRows(db, ids, at), now);
  }

  lemma RecoveredNotDue(db: Db, ids: set<Id>, next: int, now: int)
    requires next > now
    ensures Due(Queue.RecoverRows(db, ids, next), now) <= Due(db, now)
  {
    NothingNewDue(db, Queue.RecoverRows(db, ids, next), now);
  }

  /** Expiry and recovery at the time of the claim add nothing to the backlog and keep the cursor. */
  lemma ExpiryAddsNothing(s: Queue.Store, limit: nat, r: Clock.Reading, fate: Fate, now: int)
    ensures var t := Queue.Expire(s, limit, r, fate).0;
            Due(t.db, now) <= Due(s.db, now) && t.rt.readyCursor == s.rt.readyCursor
  {
    var (s1, at) := Queue.Ticked(s, r);
    if at.Ok? {
      ExpiredNotDue(s.db, Ids(First(Queue.ExpiryKeys(s.db, at.value), limit)), at.value, now);
    }
  }

  lemma BatchAddsNothing(s: Queue.Store, limit: nat, now: nat, fate: Fate)
    ensures var t := Queue.RecoverBatch(s, limit, now, fate).0;
            Due(t.db, now) <= Due(s.db, now) && t.rt.readyCursor == s.rt.readyCursor
  {
    Transactions.RecoverBatchMoves(s, limit, now, fate);
    Transactions.RecoverBatchWrites(s, limit, now, fate);
    RecoveredNotDue(s.db, Queue.Ownerless(s, limit), now + Queue.RECOVERY_DELAY_MS, now);
  }

  lemma RecoveryAddsNothing(s: Queue.Store, limit: nat, live: set<nat>, r: Clock.Reading, fate: Fate, now: nat)
    requires r.wall == Some(now)
    ensures var t := Queue.Recover(s, limit, live, r, fate).0;
            Due(t.db, now) <= Due(s.db, now) && t.rt.readyCursor == s.rt.readyCursor
  {
    BatchAddsNothing(Queue.Pruned(s, live), limit, now, fate);
  }

  lemma ExamineAddsNothing(c: Queue.Claimed, id: Id, ctx: Queue.Context)
    requires ctx.policy.Valid() && Queue.Examine(c, id, ctx).Ok?
    ensures Due(Queue.Examine(c, id, ctx).value.tx, ctx.now) <= Due(c.tx, ctx.now)
  {
    if id in c.tx.deliveries {
      ExamineCases(c, id, ctx);
      var next := Queue.Examine(c, id, ctx).value;
      forall x | x in next.tx.deliveries && x != id ensures next.tx.deliveries[x] == c.tx.deliveries[x] {
        assert ViewOf(next.tx, x).d == ViewOf(c.tx, x).d;
      }
      NothingNewDue(c.tx, next.tx, ctx.now);
    }
  }

  lemma {:induction false} ScanAddsNothing(c: Queue.Claimed, rows: seq<Key>, ctx: Queue.Context)
    requires ctx.policy.Valid() && Queue.Scan(c, rows, ctx).Ok?
    ensures Due(Queue.Scan(c, rows, ctx).value.tx, ctx.now) <= Due(c.tx, ctx.now)
    decreases |rows|
  {
    if rows != [] && |c.leases| < ctx.available {
      ExamineAddsNothing(c, rows[0].id, ctx);
      ScanAddsNothing(Queue.Examine(c, rows[0].id, ctx).value, rows[1..], ctx);
    }
  }

  // ---------------------------------------------------------------- what being examined means

  lemma {:induction false} LeasesForGrows(leases: seq<Queue.Lease>, more: seq<Queue.Lease>, domain: string)
    requires leases <= more
    ensures Queue.LeasesFor(leases, domain) <= Queue.LeasesFor(more, domain)
    decreases |more|
  {
    if |leases| < |more| {
      LeasesForGrows(leases, more[..|more| - 1], domain);
    } else {
      assert leases == more;
    }
  }

  lemma {:induction false} ScanExtends(c: Queue.Claimed, rows: seq<Key>, ctx: Queue.Context)
    requires ctx.policy.Valid() && Queue.Scan(c, rows, ctx).Ok?
    ensures c.leases <= Queue.Scan(c, rows, ctx).value.leases
    decreases |rows|
  {
    if rows != [] && |c.leases| < ctx.available {
      ScanExtends(Queue.Examine(c, rows[0].id, ctx).value, rows[1..], ctx);
    }
  }

  /** The only reasons for which an examined row is not leased. */
  ghost predicate Served(d: Delivery, id: Id, f: Queue.Claimed, ctx: Queue.Context) {
    || (exists i :: 0 <= i < |f.leases| && f.leases[i].id == id)
    || id in ctx.active
    || d.expires <= ctx.now
    || d.attempts >= I64_MAX || d.generation >= I64_MAX
    || AtShare(f, Addresses.DomainOf(d.recipient), ctx)
  }

  /** The live owners of the domain and the leases just handed out to it use up its share. */
  predicate AtShare(f: Queue.Claimed, domain: string, ctx: Queue.Context) {
    |set id | id in ctx.active && ctx.active[id].domain == domain && ctx.active[id].serial in ctx.live|
    + |set i | 0 <= i < |f.leases| && f.leases[i].domain == domain|
    >= ctx.policy.perDomain
  }

  lemma {:induction false} LeasesCounted(leases: seq<Queue.Lease>, domain: string)
    ensures Queue.LeasesFor(leases, domain) == |set i | 0 <= i < |leases| && leases[i].domain == domain|
  {
    var here := set i | 0 <= i < |leases| && leases[i].domain == domain;
    if leases == [] {
      assert here == {};
    } else {
      var n := |leases| - 1;
      var before := set i | 0 <= i < |leases[..n]| && leases[..n][i].domain == domain;
      LeasesCounted(leases[..n], domain);
      assert here == before + if leases[n].domain == domain then {n} else {};
    }
  }

  lemma FullIsAtShare(f: Queue.Claimed, domain: string, ctx: Queue.Context)
    ensures Queue.DomainFull(f, domain, ctx) <==> AtShare(f, domain, ctx)
  {
    LeasesCounted(f.leases, domain);
    assert Queue.Holders(ctx.active, ctx.live, domain)
           == set id | id in ctx.active && ctx.active[id].domain == domain && ctx.active[id].serial in ctx.live;
  }

  lemma ExamineServes(c: Queue.Claimed, id: Id, ctx: Queue.Context)
    requires ctx.policy.Valid() && Queue.Examine(c, id, ctx).Ok?
    requires id in c.tx.deliveries && Addresses.IsAddress(c.tx.deliveries[id].recipient)
    ensures Served(c.tx.deliveries[id], id, Queue.Examine(c, id, ctx).value, ctx)
  {
    var f := Queue.Examine(c, id, ctx).value;
    FullIsAtShare(c, Addresses.DomainOf(c.tx.deliveries[id].recipient), ctx);
    if |f.leases| > |c.leases| {
      assert f.leases[|c.leases|].id == id;
    }
  }

  lemma ServedStays(d: Delivery, id: Id, f: Queue.Claimed, g: Queue.Claimed, ctx: Queue.Context)
    requires Served(d, id, f, ctx) && f.leases <= g.leases
    ensures Served(d, id, g, ctx)
  {
    LeasesForGrows(f.leases, g.leases, Addresses.DomainOf(d.recipient));
    FullIsAtShare(f, Addresses.DomainOf(d.recipient), ctx);
    FullIsAtShare(g, Addresses.DomainOf(d.recipient), ctx);
    if i :| 0 <= i < |f.leases| && f.leases[i].id == id {
      assert g.leases[i].id == id;
    }
  }

  lemma WaitingReads(base: Db, tx: Db, id: Id)
    requires Growth.Linked(base) && id in base.deliveries && Queue.Waiting(base.deliveries[id])
    requires id in tx.deliveries && ViewOf(tx, id) == ViewOf(base, id)
    ensures tx.deliveries[id] == base.deliveries[id] && Addresses.IsAddress(base.deliveries[id].recipient)
  {
    assert Growth.DeliveryOk(base, base.deliveries[id]);
    assert ViewOf(tx, id).d == ViewOf(base, id).d;
  }

  /** The rows still to come, as they were. */
  ghost predicate Pristine(base: Db, tx: Db, rows: seq<Key>) {
    && (forall i, j :: 0 <= i < j < |rows| ==> rows[i].id != rows[j].id)
    && forall i :: 0 <= i < |rows| ==>
         && rows[i].id in base.deliveries && Addresses.IsAddress(base.deliveries[rows[i].id].recipient)
         && rows[i].id in tx.deliveries && tx.deliveries[rows[i].id] == base.deliveries[rows[i].id]
  }

  lemma ExamineTouchesOne(c: Queue.Claimed, id: Id, ctx: Queue.Context)
    requires ctx.policy.Valid() && Queue.Examine(c, id, ctx).Ok?
    ensures var next := Queue.Examine(c, id, ctx).value;
            && next.seen == c.seen + 1
            && forall x :: x in c.tx.deliveries && x != id ==>
              x in next.tx.deliveries && next.tx.deliveries[x] == c.tx.deliveries[x]
  {
  }

  /** One turn of the loop. */
  lemma ScanTurns(c: Queue.Claimed, rows: seq<Key>, ctx: Queue.Context, f: Queue.Claimed) returns (next: Queue.Claimed)
    requires ctx.policy.Valid() && Queue.Scan(c, rows, ctx) == Ok(f) && f.seen > c.seen
    ensures rows != [] && |c.leases| < ctx.available
    ensures Queue.Examine(c, rows[0].id, ctx) == Ok(next)
    ensures Queue.Scan(next, rows[1..], ctx) == Ok(f)
    ensures next.seen == c.seen + 1
    ensures forall x :: x in c.tx.deliveries && x != rows[0].id ==>
              x in next.tx.deliveries && next.tx.deliveries[x] == c.tx.deliveries[x]
  {
    ExamineTouchesOne(c, rows[0].id, ctx);
    next := Queue.Examine(c, rows[0].id, ctx).value;
  }

  /** Row `x` is as it was in `tx`, unless it is one of the first `j` candidates. */
  ghost predicate Unmoved(tx: Db, next: Db, rows: seq<Key>, j: nat)
    requires j <= |rows|
  {
    forall x :: x in tx.deliveries && (forall i :: 0 <= i < j ==> rows[i].id != x) ==>
      x in next.deliveries && next.deliveries[x] == tx.deliveries[x]
  }

  lemma UnmovedLater(tx: Db, mid: Db, next: Db, rows: seq<Key>, j: nat)
    requires 0 < j <= |rows| && Unmoved(mid, next, rows[1..], j - 1)
    requires forall x :: x in tx.deliveries && x != rows[0].id ==>
             x in mid.deliveries && mid.deliveries[x] == tx.deliveries[x]
    ensures Unmoved(tx, next, rows, j)
  {
    forall x | x in tx.deliveries && (forall i :: 0 <= i < j ==> rows[i].id != x)
      ensures x in next.deliveries && next.deliveries[x] == tx.deliveries[x]
    {
      assert rows[0].id != x;
      forall i | 0 <= i < j - 1 ensures rows[1..][i].id != x {
        assert rows[1..][i] == rows[i + 1];
      }
    }
  }

  /** The moment at which candidate `j` comes up. */
  lemma {:induction false} Moment(c: Queue.Claimed, rows: seq<Key>, ctx: Queue.Context, j: nat, f: Queue.Claimed)
    returns (m: Queue.Claimed)
    requires ctx.policy.Valid() && Queue.Scan(c, rows, ctx) == Ok(f) && j < f.seen - c.seen && j < |rows|
    ensures Queue.Examine(m, rows[j].id, ctx).Ok? && Queue.Examine(m, rows[j].id, ctx).value.leases <= f.leases
    ensures Unmoved(c.tx, m.tx, rows, j)
    decreases j
  {
    var next := ScanTurns(c, rows, ctx, f);
    if j == 0 {
      m := c;
      ScanExtends(next, rows[1..], ctx);
    } else {
      m := Moment(next, rows[1..], ctx, j - 1, f);
      UnmovedLater(c.tx, next.tx, m.tx, rows, j);
    }
  }

  lemma ScanServes(base: Db, rows: seq<Key>, ctx: Queue.Context, j: nat, f: Queue.Claimed)
    requires ctx.policy.Valid() && Pristine(base, base, rows)
    requires Queue.Scan(Queue.Claimed(base, [], 0), rows, ctx) == Ok(f) && j < f.seen && j < |rows|
    ensures rows[j].id in base.deliveries && Served(base.deliveries[rows[j].id], rows[j].id, f, ctx)
  {
    var m := Moment(Queue.Claimed(base, [], 0), rows, ctx, j, f);
    var id := rows[j].id;
    assert id in m.tx.deliveries && m.tx.deliveries[id] == base.deliveries[id];
    ExamineServes(m, id, ctx);
    ServedStays(base.deliveries[id], id, Queue.Examine(m, id, ctx).value, f, ctx);
  }

  lemma BatchPristine(s: Queue.Store, now: nat)
    requires Growth.Linked(s.db)
    ensures Pristine(s.db, s.db, Queue.ReadyBatch(s, now))
  {
    var rows := Queue.ReadyBatch(s, now);
    ReadyBatchWaits(s, now);
    forall i | 0 <= i < |rows|
      ensures rows[i].id in s.db.deliveries && Addresses.IsAddress(s.db.deliveries[rows[i].id].recipient)
    {
      assert rows[i] in rows;
      WaitingReads(s.db, s.db, rows[i].id);
    }
  }

  /**
   * A row that was reached is leased by that claim unless it has a live owner, has expired, has used
   * up its counters, or its own domain is at its limit.
   */
  lemma ReachedIsServed(a: Round, now: nat, k: Key)
    requires Ready(a, now) && Growth.Linked(a.store.db) && k in Seen(a)
    ensures k.id in a.store.db.deliveries
    ensures Served(a.store.db.deliveries[k.id], k.id, ScanOf(a).value, a.ctx)
  {
    var j := SeenAt(a, k);
    BatchPristine(a.store, now);
    ScanServes(a.store.db, Rows(a), a.ctx, j, ScanOf(a).value);
  }

  lemma SeenAt(a: Round, k: Key) returns (j: nat)
    requires a.ctx.policy.Valid() && ScanOf(a).Ok? && k in Seen(a)
    ensures j < ScanOf(a).value.seen && j < |Rows(a)| && Rows(a)[j] == k
  {
    Queue.ScanSeesWithinBatch(Queue.Claimed(a.store.db, [], 0), Rows(a), a.ctx);
    j :| 0 <= j < |Seen(a)| && Seen(a)[j] == k;
  }

  // ---------------------------------------------------------------- the claim meets no damaged row

  predicate LeaseOverflows(ctx: Queue.Context) { ctx.now + ctx.policy.leaseSeconds * 1000 > I64_MAX }

  /** All that `Examine` looks up is there. */
  ghost predicate Readable(tx: Db, id: Id)
    requires id in tx.deliveries
  {
    && Addresses.Parse(tx.deliveries[id].recipient).Some?
    && tx.deliveries[id].message in tx.messages && tx.deliveries[id].message in tx.queued
    && tx.messages[tx.deliveries[id].message].blob in tx.blobs
    && (tx.messages[tx.deliveries[id].message].sender == ""
        || Addresses.Parse(tx.messages[tx.deliveries[id].message].sender).Some?)
  }

  lemma ReadableExamines(c: Queue.Claimed, id: Id, ctx: Queue.Context)
    requires ctx.policy.Valid() && id in c.tx.deliveries && Readable(c.tx, id)
    ensures Queue.Examine(c, id, ctx).Err? ==> Queue.Examine(c, id, ctx).error == InvalidInput && LeaseOverflows(ctx)
  {
  }

  lemma ExamineReads(base: Db, c: Queue.Claimed, id: Id, ctx: Queue.Context)
    requires ctx.policy.Valid() && Growth.Linked(base) && RowsScanned(base, c.tx, ctx.active.Keys)
    requires id in base.deliveries && Queue.Waiting(base.deliveries[id]) && ViewOf(c.tx, id) == ViewOf(base, id)
    ensures Queue.Examine(c, id, ctx).Err? ==> Queue.Examine(c, id, ctx).error == InvalidInput && LeaseOverflows(ctx)
  {
    assert Readable(c.tx, id) by {
      WaitingReads(base, c.tx, id);
      assert Growth.DeliveryOk(base, base.deliveries[id]);
      assert Growth.MessageOk(base, base.deliveries[id].message);
    }
    ReadableExamines(c, id, ctx);
  }

  lemma {:induction false} ScanReads(base: Db, c: Queue.Claimed, rows: seq<Key>, ctx: Queue.Context)
    requires ctx.policy.Valid() && Growth.Linked(base) && RowsOk(base)
    requires Scanned(base, c, ctx) && Untouched(base, c, rows) && Queue.Scan(c, rows, ctx).Err?
    ensures Queue.Scan(c, rows, ctx).error == InvalidInput && LeaseOverflows(ctx)
    decreases |rows|
  {
    assert rows[0] in rows;
    ExamineReads(base, c, rows[0].id, ctx);
    if Queue.Examine(c, rows[0].id, ctx).Ok? {
      var next := Queue.Examine(c, rows[0].id, ctx).value;
      ExamineCases(c, rows[0].id, ctx);
      ExamineScans(base, c, next, rows, ctx);
      ScanReads(base, next, rows[1..], ctx);
    }
  }

  /** Stored addresses always read back: a claim can only fail to compute an absurd lease deadline. */
  lemma ClaimReads(s: Queue.Store, ctx: Queue.Context)
    requires ctx.policy.Valid() && Growth.Linked(s.db) && RowsOk(s.db)
    requires Queue.Scan(Queue.Claimed(s.db, [], 0), Queue.ReadyBatch(s, ctx.now), ctx).Err?
    ensures Queue.Scan(Queue.Claimed(s.db, [], 0), Queue.ReadyBatch(s, ctx.now), ctx).error == InvalidInput
    ensures LeaseOverflows(ctx)
  {
    var rows := Queue.ReadyBatch(s, ctx.now);
    ReadyBatchWaits(s, ctx.now);
    StartScanned(s.db, rows, ctx);
    ScanReads(s.db, Queue.Claimed(s.db, [], 0), rows, ctx);
  }

  // ---------------------------------------------------------------- recovery to the end

  /** One call of `queue_recover` on a store without live owners. */
  datatype Sweep = Sweep(limit: nat, r: Clock.Reading, fate: Fate)

  function Swept(s: Queue.Store, w: Sweep): (Queue.Store, Result<nat, StoreError>) {
    Queue.Recover(s, w.limit, {}, w.r, w.fate)
  }

  function SweptAll(s: Queue.Store, sweeps: seq<Sweep>): Queue.Store {
    if sweeps == [] then s else Swept(SweptAll(s, sweeps[..|sweeps| - 1]), sweeps[|sweeps| - 1]).0
  }

  /** Leased rows lie ahead of the recovery cursor. */
  ghost predicate LeasedAhead(s: Queue.Store) {
    forall id :: id in s.db.deliveries && s.db.deliveries[id].state == Leased ==> id > s.rt.recoveryCursor
  }

  ghost predicate NoneLeased(db: Db) {
    forall id :: id in db.deliveries ==> db.deliveries[id].state != Leased
  }

  /** A store just opened, or part of the way through recovery, with no owner alive. */
  ghost predicate Sweepable(s: Queue.Store) {
    Transactions.DbOk(s.db) && LeasedAhead(s) && s.rt.active == map[]
  }

  lemma AllAreOwnerless(s: Queue.Store, limit: nat)
    requires s.rt.active == map[]
    ensures Queue.Ownerless(s, limit) == Ids(Queue.RecoveryBatch(s, limit))
  {
  }

  lemma BatchMember(s: Queue.Store, limit: nat, id: Id)
    requires id in Ids(Queue.RecoveryBatch(s, limit))
    ensures id in s.db.deliveries && id in s.db.leases && s.db.deliveries[id].state == Leased
  {
    var rows := Queue.RecoveryBatch(s, limit);
    var i :| 0 <= i < |rows| && rows[i].id == id;
    assert rows[i] in Queue.RecoveryKeys(s.db, s.rt.recoveryCursor);
  }

  /** A leased row that is not in the batch comes after all of it. */
  lemma BatchRest(s: Queue.Store, limit: nat, id: Id)
    requires LeasedAhead(s) && id in s.db.deliveries && RowOk(ViewOf(s.db, id))
    requires s.db.deliveries[id].state == Leased && id !in Ids(Queue.RecoveryBatch(s, limit))
    ensures var rows := Queue.RecoveryBatch(s, limit);
            |rows| == limit && forall i :: 0 <= i < |rows| ==> rows[i].id < id
  {
    var keys, rows := Queue.RecoveryKeys(s.db, s.rt.recoveryCursor), Queue.RecoveryBatch(s, limit);
    assert Key(0, id) in keys && Key(0, id) !in rows;
    forall i | 0 <= i < |rows| ensures rows[i].id < id {
      assert rows[i] in keys && Before(rows[i], Key(0, id));
    }
  }

  lemma BatchIds(s: Queue.Store, limit: nat, id: Id)
    requires Sweepable(s)
    ensures id in Ids(Queue.RecoveryBatch(s, limit)) ==>
              id in s.db.deliveries && id in s.db.leases && s.db.deliveries[id].state == Leased
    ensures id in s.db.deliveries && s.db.deliveries[id].state == Leased
            && id !in Ids(Queue.RecoveryBatch(s, limit)) ==>
              var rows := Queue.RecoveryBatch(s, limit);
              |rows| == limit && forall i :: 0 <= i < |rows| ==> rows[i].id < id
  {
    if id in Ids(Queue.RecoveryBatch(s, limit)) {
      BatchMember(s, limit, id);
    } else if id in s.db.deliveries && s.db.deliveries[id].state == Leased {
      BatchRest(s, limit, id);
    }
  }

  lemma SweepIs(s: Queue.Store, w: Sweep)
    requires s.rt.active == map[]
    ensures Queue.Pruned(s, {}) == s
    ensures 1 <= w.limit <= Queue.BATCH && w.r.wall.Some? ==>
            Swept(s, w) == Queue.RecoverBatch(s, w.limit, w.r.wall.value, w.fate)
    ensures !(1 <= w.limit <= Queue.BATCH && w.r.wall.Some?) ==> Swept(s, w).0 == s && Swept(s, w).1.Err?
  {
    assert Queue.Pruned(s, {}).rt.active == map[];
  }

  lemma BatchCount(s: Queue.Store, limit: nat)
    requires s.rt.active == map[]
    ensures Queue.Ownerless(s, limit) == Ids(Queue.RecoveryBatch(s, limit))
    ensures |Queue.Ownerless(s, limit)| == |Queue.RecoveryBatch(s, limit)|
  {
    var keys, rows := Queue.RecoveryKeys(s.db, s.rt.recoveryCursor), Queue.RecoveryBatch(s, limit);
    forall i, j | 0 <= i < j < |rows| ensures rows[i].id != rows[j].id {
      assert rows[i] in keys && rows[j] in keys && Before(rows[i], rows[j]);
    }
    IdsCount(rows);
    AllAreOwnerless(s, limit);
  }

  /** The rows a recovery batch leaves leased. */
  lemma SweptRows(s: Queue.Store, limit: nat, next: int)
    requires Sweepable(s)
    ensures var db := Queue.RecoverRows(s.db, Queue.Ownerless(s, limit), next);
            forall id :: id in db.deliveries && db.deliveries[id].state == Leased ==>
              && id in s.db.deliveries && s.db.deliveries[id].state == Leased
              && var rows := Queue.RecoveryBatch(s, limit);
                 |rows| == limit && forall i :: 0 <= i < |rows| ==> rows[i].id < id
  {
    AllAreOwnerless(s, limit);
    forall id | id in s.db.deliveries && s.db.deliveries[id].state == Leased
      ensures id in Queue.Ownerless(s, limit) ==> id in s.db.leases
      ensures id !in Queue.Ownerless(s, limit) ==>
                var rows := Queue.RecoveryBatch(s, limit);
                |rows| == limit && forall i :: 0 <= i < |rows| ==> rows[i].id < id
    {
      BatchIds(s, limit, id);
    }
    forall id | id in Queue.Ownerless(s, limit) ensures id in s.db.deliveries && s.db.deliveries[id].state == Leased {
      BatchIds(s, limit, id);
    }
  }

  /** Nothing to recover: the batch is empty, so no row is leased. */
  lemma EmptyBatch(s: Queue.Store, limit: nat)
    requires Sweepable(s) && limit >= 1 && Queue.Ownerless(s, limit) == {}
    ensures NoneLeased(s.db)
  {
    BatchCount(s, limit);
    forall id | id in s.db.deliveries ensures s.db.deliveries[id].state != Leased {
      BatchIds(s, limit, id);
    }
  }

  /** What a batch comes to: where the cursor goes, */
  lemma BatchCursor(s: Queue.Store, limit: nat, now: nat, fate: Fate)
    requires limit >= 1
    ensures var t := Queue.RecoverBatch(s, limit, now, fate).0;
            var rows := Queue.RecoveryBatch(s, limit);
            && t.rt.active == s.rt.active
            && (t.rt.recoveryCursor == s.rt.recoveryCursor || t.rt.recoveryCursor == -1
                || (|rows| == limit && t.rt.recoveryCursor == rows[limit - 1].id))
  {
  }

  /** ... what is answered, */
  lemma BatchAnswer(s: Queue.Store, limit: nat, now: nat, fate: Fate)
    requires Queue.RecoverBatch(s, limit, now, fate).1.Ok?
    ensures Queue.RecoverBatch(s, limit, now, fate).1.value == |Queue.Ownerless(s, limit)|
    ensures Queue.Ownerless(s, limit) != {} ==> fate == Confirmed && now + Queue.RECOVERY_DELAY_MS <= I64_MAX
  {
  }

  lemma BatchConfirmed(s: Queue.Store, limit: nat, now: nat, fate: Fate)
    requires now + Queue.RECOVERY_DELAY_MS <= I64_MAX && Queue.Ownerless(s, limit) != {} && fate == Confirmed
    ensures Queue.RecoverBatch(s, limit, now, fate).0.db
            == Queue.RecoverRows(s.db, Queue.Ownerless(s, limit), now + Queue.RECOVERY_DELAY_MS)
  {
    var next := Queue.Later(now, Queue.RECOVERY_DELAY_MS);
    var rows := Queue.RecoveryBatch(s, limit);
    var moved := s.(rt := s.rt.(recoveryCursor := if |rows| == limit > 0 then rows[limit - 1].id else -1));
    var tx := Queue.RecoverRows(s.db, Queue.Ownerless(s, limit), next.value);
    assert Queue.RecoverBatch(s, limit, now, fate) == (moved.(db := tx), Ok(|Queue.Ownerless(s, limit)|));
  }

  /** ... and that the cursor only moves with an answer. */
  lemma BatchUnanswered(s: Queue.Store, limit: nat, now: nat, fate: Fate)
    requires Queue.RecoverBatch(s, limit, now, fate).1.Err?
    ensures Queue.RecoverBatch(s, limit, now, fate).0.rt == s.rt
  {
  }

  lemma BatchSweeps(s: Queue.Store, limit: nat, now: nat, fate: Fate)
    requires Sweepable(s) && limit >= 1
    ensures var (t, r) := Queue.RecoverBatch(s, limit, now, fate);
            && LeasedAhead(t) && t.rt.active == map[]
            && (r.Ok? && r.value < limit ==> NoneLeased(t.db))
  {
    BatchCount(s, limit);
    BatchCursor(s, limit, now, fate);
    if Queue.RecoverBatch(s, limit, now, fate).1.Ok? {
      BatchAnswer(s, limit, now, fate);
    } else {
      BatchUnanswered(s, limit, now, fate);
    }
    Transactions.RecoverBatchWrites(s, limit, now, fate);
    if Queue.Ownerless(s, limit) == {} {
      EmptyBatch(s, limit);
      NothingWritten(s, limit, now, fate);
    } else {
      SweptRows(s, limit, now + Queue.RECOVERY_DELAY_MS);
      if fate == Confirmed && Queue.RecoverBatch(s, limit, now, fate).1.Ok? {
        BatchConfirmed(s, limit, now, fate);
      }
    }
  }

  lemma NothingWritten(s: Queue.Store, limit: nat, now: nat, fate: Fate)
    requires Queue.Ownerless(s, limit) == {}
    ensures Queue.RecoverBatch(s, limit, now, fate).0.db == s.db
  {
  }

  lemma SweepKeeps(s: Queue.Store, w: Sweep)
    requires Sweepable(s)
    ensures Sweepable(Swept(s, w).0)
    ensures Swept(s, w).1.Ok? && Swept(s, w).1.value < w.limit ==> NoneLeased(Swept(s, w).0.db)
  {
    SweepIs(s, w);
    if 1 <= w.limit <= Queue.BATCH && w.r.wall.Some? {
      Transactions.RecoverBatchSound(s, w.limit, w.r.wall.value, w.fate, {});
      BatchSweeps(s, w.limit, w.r.wall.value, w.fate);
    }
  }

  lemma {:induction false} SweepsKeep(s: Queue.Store, sweeps: seq<Sweep>)
    requires Sweepable(s)
    ensures Sweepable(SweptAll(s, sweeps))
  {
    if sweeps != [] {
      SweepsKeep(s, sweeps[..|sweeps| - 1]);
      SweepKeeps(SweptAll(s, sweeps[..|sweeps| - 1]), sweeps[|sweeps| - 1]);
    }
  }

  /**
   * On a reopened store, calls of `queue_recover` with any limits, clocks and commit fates leave no
   * leased row as soon as one of them reports fewer rows than its limit.
   */
  lemma RecoveryCompletes(db: Db, lock: nat, sweeps: seq<Sweep>, last: Sweep)
    requires Transactions.DbOk(db)
    requires var answer := Swept(SweptAll(Queue.Reopened(db, lock), sweeps), last).1;
             answer.Ok? && answer.value < last.limit
    ensures NoneLeased(Swept(SweptAll(Queue.Reopened(db, lock), sweeps), last).0.db)
  {
    SweepsKeep(Queue.Reopened(db, lock), sweeps);
    SweepKeeps(SweptAll(Queue.Reopened(db, lock), sweeps), last);
  }

  // ---------------------------------------------------------------- how long recovery takes

  function LeasedIds(db: Db): set<Id> { set id | id in db.deliveries && db.deliveries[id].state == Leased }

  /** A call with a legal limit, a readable and representable time and a confirmed commit. */
  predicate Answerable(w: Sweep) {
    && 1 <= w.limit <= Queue.BATCH && w.r.wall.Some?
    && w.r.wall.value + Queue.RECOVERY_DELAY_MS <= I64_MAX && w.fate == Confirmed
  }

  function Limits(sweeps: seq<Sweep>): nat {
    if sweeps == [] then 0 else Limits(sweeps[..|sweeps| - 1]) + sweeps[|sweeps| - 1].limit
  }

  function Remaining(n: nat, limit: nat): nat { if n <= limit then 0 else n - limit }

  lemma AnswerableWrites(s: Queue.Store, w: Sweep)
    requires s.rt.active == map[] && Answerable(w)
    ensures Swept(s, w).1 == Ok(|Queue.Ownerless(s, w.limit)|)
    ensures Queue.Ownerless(s, w.limit) == {} ==> Swept(s, w).0.db == s.db
    ensures Queue.Ownerless(s, w.limit) != {} ==>
              Swept(s, w).0.db
              == Queue.RecoverRows(s.db, Queue.Ownerless(s, w.limit), w.r.wall.value + Queue.RECOVERY_DELAY_MS)
  {
    SweepIs(s, w);
  }

  lemma BatchIsLeased(s: Queue.Store, limit: nat)
    requires Sweepable(s)
    ensures Queue.Ownerless(s, limit) <= LeasedIds(s.db) && Queue.Ownerless(s, limit) <= s.db.leases.Keys
    ensures |Queue.Ownerless(s, limit)| <= limit
    ensures |Queue.Ownerless(s, limit)| < limit ==> Queue.Ownerless(s, limit) == LeasedIds(s.db)
  {
    BatchCount(s, limit);
    forall id | id in Queue.Ownerless(s, limit) ensures id in LeasedIds(s.db) && id in s.db.leases {
      BatchIds(s, limit, id);
    }
    if |Queue.Ownerless(s, limit)| < limit {
      forall id | id in LeasedIds(s.db) ensures id in Queue.Ownerless(s, limit) {
        BatchIds(s, limit, id);
      }
    }
  }

  lemma RecoveredLeave(db: Db, ids: set<Id>, next: int)
    requires ids <= db.leases.Keys
    ensures LeasedIds(Queue.RecoverRows(db, ids, next)) == LeasedIds(db) - ids
  {
  }

  /** An answered sweep recovers as many rows as its limit allows. */
  lemma SweepDrains(s: Queue.Store, w: Sweep)
    requires Sweepable(s) && Answerable(w)
    ensures |LeasedIds(Swept(s, w).0.db)| == Remaining(|LeasedIds(s.db)|, w.limit)
  {
    var gone := Queue.Ownerless(s, w.limit);
    BatchIsLeased(s, w.limit);
    AnswerableWrites(s, w);
    RecoveredLeave(s.db, gone, w.r.wall.value + Queue.RECOVERY_DELAY_MS);
    assert |LeasedIds(s.db) - gone| == |LeasedIds(s.db)| - |gone|;
  }

  /**
   * Startup recovery in bounded time: answered sweeps of a reopened store leave exactly the leased rows that
   * their limits together do not cover, so n leased rows and a limit L need n / L calls, rounded up.
   */
  lemma {:induction false} RecoveryIsBounded(db: Db, lock: nat, sweeps: seq<Sweep>)
    requires Transactions.DbOk(db) && forall i :: 0 <= i < |sweeps| ==> Answerable(sweeps[i])
    ensures |LeasedIds(SweptAll(Queue.Reopened(db, lock), sweeps).db)| == Remaining(|LeasedIds(db)|, Limits(sweeps))
    decreases |sweeps|
  {
    if sweeps != [] {
      var before := sweeps[..|sweeps| - 1];
      RecoveryIsBounded(db, lock, before);
      SweepsKeep(Queue.Reopened(db, lock), before);
      SweepDrains(SweptAll(Queue.Reopened(db, lock), before), sweeps[|sweeps| - 1]);
    }
  }
}
