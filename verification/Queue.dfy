/** Durable per-recipient relay responsibility (crates/store/src/queue.rs), as functions on the store. */
module Queue {
  import opened Wrappers
  import opened Tables
  import opened Ordering
  import Addresses
  import Clock

  const BATCH := 128
  const RECOVERY_DELAY_MS := 1_800_000

  // ---------------------------------------------------------------- state

  /** LeaseGuard: `serial` identifies the allocation, `domain` the admission slot it takes. */
  datatype Guard = Guard(serial: nat, domain: string)

  /** QueueRuntime. Dead weak references stay in `active` until the next recovery. */
  datatype Runtime = Runtime(
    active: map<Id, Guard>, readyCursor: Option<Key>, recoveryCursor: int,
    clock: Clock.Guard, lock: nat)

  datatype Store = Store(db: Db, rt: Runtime)

  function Reopened(db: Db, lock: nat): Store {
    Store(db, Runtime(map[], None, -1, Clock.FRESH, lock))
  }

  datatype Lease = Lease(
    id: Id, token: Id, generation: nat, serial: nat, lock: nat, domain: string, retryMs: nat,
    message: Id, recipient: string, sender: Option<string>, body: BodyMode, blob: Id,
    storedSize: nat, submission: bool)

  datatype QueueResult = Accepted(code: nat) | Temporary(code: nat) | Permanent(code: nat)
                       | ConnectionLost | HoldBack | Unavailable

  datatype Policy = Policy(concurrency: nat, perDomain: nat, leaseSeconds: nat,
                           retrySeconds: seq<nat>, jitterPercent: nat)
  {
    predicate Valid() {
      && 1 <= concurrency <= BATCH
      && 1 <= perDomain <= concurrency
      && 1 <= leaseSeconds <= 3600
      && 1 <= |retrySeconds| <= 32
      && (forall i :: 0 <= i < |retrySeconds| ==> 1 <= retrySeconds[i] <= 86400)
      && jitterPercent <= 50
    }

    function BaseMs(attempts: nat): nat
      requires Valid()
    {
      var last := |retrySeconds| - 1;
      var index := if attempts == 0 then 0 else if attempts - 1 < last then attempts - 1 else last;
      retrySeconds[index] * 1000
    }

    /** `delay_ms`; `random` stands for the eight hash bytes. Jitter only ever lengthens the delay. */
    function DelayMs(attempts: nat, random: nat): (ms: nat)
      requires Valid()
      ensures var base := retrySeconds[if attempts == 0 then 0 else Min(attempts - 1, |retrySeconds| - 1)] * 1000;
              base <= ms <= base + base * jitterPercent / 100
    {
      var base := BaseMs(attempts);
      base + random % (base * jitterPercent / 100 + 1)
    }
  }

  /** A fresh token and the hash bytes of the jitter, drawn for one lease. */
  datatype Draw = Draw(token: Id, random: nat)

  function Later(now: int, ms: nat): (r: Result<int, StoreError>) {
    if now + ms > I64_MAX then Err(InvalidInput) else Ok(now + ms)
  }

  function SaturatingAdd(now: nat, ms: nat): nat {
    if now + ms > I64_MAX then I64_MAX else now + ms
  }

  function ClockFailure(e: Clock.ClockError): StoreError {
    match e case Unreadable => InvalidInput case Changed => ClockChanged
  }

  /** `self.queue.now(...)`: the guard moves even when the reading is refused. */
  function Ticked(s: Store, r: Clock.Reading): (Store, Result<nat, StoreError>) {
    var (g, t) := Clock.Now(s.rt.clock, r);
    (s.(rt := s.rt.(clock := g)), if t.Ok? then Ok(t.value) else Err(ClockFailure(t.error)))
  }

  function Put(db: Db, id: Id, d: Delivery): Db {
    db.(deliveries := db.deliveries[id := d])
  }

  /** `commit`: the store afterwards and what the caller is told. */
  function Commit<T>(s: Store, tx: Db, fate: Fate, value: T): (Store, Result<T, StoreError>) {
    (s.(db := Settle(s.db, tx, fate)), if fate.Confirmed? then Ok(value) else Err(OutcomeUnknown))
  }

  function CheckLease(s: Store, lease: Lease): (r: Option<Phase>) {
    if && lease.lock == s.rt.lock
       && lease.id in s.db.deliveries && lease.id in s.db.leases
       && var d := s.db.deliveries[lease.id];
          d.route == Relay && d.state == Leased && d.token == Some(lease.token)
          && d.generation == lease.generation
    then Some(s.db.leases[lease.id]) else None
  }

  // ---------------------------------------------------------------- expiry

  predicate Waiting(d: Delivery) { d.route == Relay && (d.state == Pending || d.state == Deferred) }

  function ExpiryKeys(db: Db, now: int): set<Key> {
    set id | id in db.deliveries && Waiting(db.deliveries[id]) && db.deliveries[id].expires <= now
      :: Key(db.deliveries[id].expires, id)
  }

  function ExpiredRow(d: Delivery, now: int): Delivery {
    d.(state := if d.possiblyDelivered then Uncertain else Failed,
       reason := Some(Expired), noticeDue := now)
  }

  function ExpireRows(db: Db, ids: set<Id>, now: int): Db {
    db.(deliveries := map id | id in db.deliveries
          :: if id in ids then ExpiredRow(db.deliveries[id], now) else db.deliveries[id])
  }

  function Expire(s: Store, limit: nat, r: Clock.Reading, fate: Fate): (Store, Result<nat, StoreError>) {
    if !(1 <= limit <= BATCH) then (s, Err(InvalidInput))
    else
      var (s1, now) := Ticked(s, r);
      if now.Err? then (s1, Err(now.error))
      else
        var rows := First(ExpiryKeys(s1.db, now.value), limit);
        if rows == [] then (s1, Ok(0))
        else Commit(s1, ExpireRows(s1.db, Ids(rows), now.value), fate, |rows|)
  }

  // ---------------------------------------------------------------- recovery

  function Pruned(s: Store, live: set<nat>): Store {
    s.(rt := s.rt.(active := map id | id in s.rt.active && s.rt.active[id].serial in live :: s.rt.active[id]))
  }

  /** Leased relay rows above the cursor; recovery orders by id alone, so every key has time 0. */
  function RecoveryKeys(db: Db, cursor: int): set<Key> {
    set id | id in db.deliveries && id in db.leases && db.deliveries[id].route == Relay
             && db.deliveries[id].state == Leased && id > cursor
      :: Key(0, id)
  }

  function RecoveredRow(d: Delivery, phase: Phase, next: int): Delivery {
    var unknown := phase == Body || d.possiblyDelivered;
    d.(state := if unknown then Uncertain else Deferred, token := None, leaseUntil := None,
       nextAttempt := next, lastCode := None, possiblyDelivered := unknown)
  }

  function RecoverRows(db: Db, ids: set<Id>, next: int): Db {
    db.(deliveries := map id | id in db.deliveries
          :: if id in ids && id in db.leases then RecoveredRow(db.deliveries[id], db.leases[id], next)
             else db.deliveries[id],
        leases := db.leases - ids)
  }

  function RecoveryBatch(s: Store, limit: nat): seq<Key> {
    First(RecoveryKeys(s.db, s.rt.recoveryCursor), limit)
  }

  /** The rows of a recovery batch whose owners are gone. */
  function Ownerless(s: Store, limit: nat): set<Id> {
    set id | id in Ids(RecoveryBatch(s, limit)) && id !in s.rt.active
  }

  /** The batch and its cursor, once dead references are pruned. */
  function RecoverBatch(s: Store, limit: nat, now: nat, fate: Fate): (Store, Result<nat, StoreError>) {
    var rows := RecoveryBatch(s, limit);
    var gone := Ownerless(s, limit);
    var moved := s.(rt := s.rt.(recoveryCursor := if |rows| == limit > 0 then rows[limit - 1].id else -1));
    if gone == {} then (moved, Ok(0))
    else
      var next := Later(now, RECOVERY_DELAY_MS);
      if next.Err? then (s, Err(next.error))
      else
        var tx := RecoverRows(s.db, gone, next.value);
        if fate.Confirmed? then (moved.(db := tx), Ok(|gone|)) else Commit(s, tx, fate, |gone|)
  }

  function Recover(s: Store, limit: nat, live: set<nat>, r: Clock.Reading, fate: Fate)
    : (Store, Result<nat, StoreError>)
  {
    if !(1 <= limit <= BATCH) then (s, Err(InvalidInput))
    else if r.wall.None? then (Pruned(s, live), Err(InvalidInput))
    else RecoverBatch(Pruned(s, live), limit, r.wall.value, fate)
  }

  // ---------------------------------------------------------------- claiming

  function ReadyKeys(db: Db, now: int, cursor: Option<Key>): set<Key> {
    set id | id in db.deliveries && Waiting(db.deliveries[id]) && db.deliveries[id].nextAttempt <= now
             && (cursor.None? || Before(cursor.value, Key(db.deliveries[id].nextAttempt, id)))
      :: Key(db.deliveries[id].nextAttempt, id)
  }

  function Holders(active: map<Id, Guard>, live: set<nat>, domain: string): set<Id> {
    set id | id in active && active[id].serial in live && active[id].domain == domain
  }

  /** Live admission slots a domain holds before the claim. */
  function Load(active: map<Id, Guard>, live: set<nat>, domain: string): nat {
    |Holders(active, live, domain)|
  }

  function LeasesFor(leases: seq<Lease>, domain: string): nat {
    if leases == [] then 0
    else LeasesFor(leases[..|leases| - 1], domain)
         + if leases[|leases| - 1].domain == domain then 1 else 0
  }

  /** What one claim call works with, fixed before its candidate loop. */
  datatype Context = Context(
    now: nat, policy: Policy, active: map<Id, Guard>, live: set<nat>, draws: seq<Draw>,
    lock: nat, serial: nat, available: nat)

  datatype Claimed = Claimed(tx: Db, leases: seq<Lease>, seen: nat)

  function DrawAt(draws: seq<Draw>, i: nat): Draw {
    if i < |draws| then draws[i] else Draw(0, 0)
  }

  predicate DomainFull(c: Claimed, domain: string, ctx: Context) {
    Load(ctx.active, ctx.live, domain) + LeasesFor(c.leases, domain) >= ctx.policy.perDomain
  }

  function LeasedRow(d: Delivery, token: Id, until: int): Delivery {
    d.(state := Leased, attempts := d.attempts + 1, generation := d.generation + 1,
       token := Some(token), leaseUntil := Some(until))
  }

  function LeaseOf(id: Id, d: Delivery, m: Message, q: QueueMeta, size: nat, i: nat, ctx: Context): Lease
    requires ctx.policy.Valid()
  {
    var draw := DrawAt(ctx.draws, i);
    Lease(id, draw.token, d.generation + 1, ctx.serial + i, ctx.lock, Addresses.DomainOf(d.recipient),
          ctx.policy.DelayMs(d.attempts + 1, draw.random), d.message, d.recipient,
          if m.sender == "" then None else Some(m.sender), q.body, m.blob, size, m.source == Submission)
  }

  /** What the candidate loop does once a candidate is to be leased. */
  function Leasing(c: Claimed, id: Id, recipient: string, ctx: Context): (r: Result<Claimed, StoreError>)
    requires ctx.policy.Valid() && id in c.tx.deliveries
  {
    var d := c.tx.deliveries[id];
    if || d.message !in c.tx.messages || d.message !in c.tx.queued
       || c.tx.messages[d.message].blob !in c.tx.blobs
    then Err(Database)
    else
      var m := c.tx.messages[d.message];
      if m.sender != "" && Addresses.Parse(m.sender).None? then Err(Integrity)
      else
        var until :- Later(ctx.now, ctx.policy.leaseSeconds * 1000);
        var lease := LeaseOf(id, d.(recipient := recipient), m, c.tx.queued[d.message], c.tx.blobs[m.blob].size,
                             |c.leases|, ctx);
        Ok(Claimed(Put(c.tx, id, LeasedRow(d, lease.token, until)).(leases := c.tx.leases[id := Ready]),
                   c.leases + [lease], c.seen + 1))
  }

  /** The body of the candidate loop. */
  function Examine(c: Claimed, id: Id, ctx: Context): (r: Result<Claimed, StoreError>)
    requires ctx.policy.Valid()
  {
    var next := c.(seen := c.seen + 1);
    if id in ctx.active || id !in c.tx.deliveries then Ok(next)
    else
      var d := c.tx.deliveries[id];
      if d.expires <= ctx.now then Ok(next)
      else if d.attempts >= I64_MAX || d.generation >= I64_MAX then
        Ok(next.(tx := Put(c.tx, id, d.(state := Hold, reason := Some(Counter)))))
      else if Addresses.Parse(d.recipient).None? then Err(Integrity)
      else if DomainFull(c, Addresses.DomainOf(Addresses.Parse(d.recipient).value), ctx) then Ok(next)
      else Leasing(c, id, Addresses.Parse(d.recipient).value, ctx)
  }

  /** The candidate loop: stops when the free slots are used up. */
  function Scan(c: Claimed, rows: seq<Key>, ctx: Context): (r: Result<Claimed, StoreError>)
    requires ctx.policy.Valid()
    decreases |rows|
  {
    if rows == [] || |c.leases| >= ctx.available then Ok(c)
    else
      var next :- Examine(c, rows[0].id, ctx);
      Scan(next, rows[1..], ctx)
  }

  /** Where the next claim resumes: at the start again after a short batch was seen to its end. */
  function NextCursor(rows: seq<Key>, seen: nat): Option<Key>
    requires seen <= |rows|
  {
    if |rows| < BATCH && seen == |rows| then None else if seen == 0 then None else Some(rows[seen - 1])
  }

  function Slots(s: Store, policy: Policy, limit: nat): nat {
    var free := if |s.rt.active| < policy.concurrency then policy.concurrency - |s.rt.active| else 0;
    if free < limit then free else limit
  }

  function Registered(active: map<Id, Guard>, leases: seq<Lease>): map<Id, Guard>
    decreases |leases|
  {
    if leases == [] then active
    else Registered(active[leases[0].id := Guard(leases[0].serial, leases[0].domain)], leases[1..])
  }

  lemma {:induction false} ScanSeesWithinBatch(c: Claimed, rows: seq<Key>, ctx: Context)
    requires ctx.policy.Valid() && Scan(c, rows, ctx).Ok?
    ensures c.seen <= Scan(c, rows, ctx).value.seen <= c.seen + |rows|
    decreases |rows|
  {
    if rows != [] && |c.leases| < ctx.available {
      ScanSeesWithinBatch(Examine(c, rows[0].id, ctx).value, rows[1..], ctx);
    }
  }

  /** The end of a claim: only a confirmed commit moves the cursor and registers its guards. */
  function ClaimCommit(s: Store, rows: seq<Key>, c: Claimed, fate: Fate): (Store, Result<seq<Lease>, StoreError>)
    requires c.seen <= |rows|
  {
    if fate.Confirmed? then
      (Store(c.tx, s.rt.(readyCursor := NextCursor(rows, c.seen), active := Registered(s.rt.active, c.leases))),
       Ok(c.leases))
    else Commit(s, c.tx, fate, c.leases)
  }

  function ReadyBatch(s: Store, now: nat): seq<Key> {
    First(ReadyKeys(s.db, now, s.rt.readyCursor), BATCH)
  }

  function ClaimContext(s: Store, policy: Policy, limit: nat, live: set<nat>, now: nat, draws: seq<Draw>,
                        serial: nat): Context {
    Context(now, policy, s.rt.active, live, draws, s.rt.lock, serial, Slots(s, policy, limit))
  }

  /** The claim proper, after its recovery and expiry batches. */
  function ClaimDue(s: Store, ctx: Context, fate: Fate): (Store, Result<seq<Lease>, StoreError>)
    requires ctx.policy.Valid()
  {
    if ctx.available == 0 then (s, Ok([]))
    else
      var rows := ReadyBatch(s, ctx.now);
      var start := Claimed(s.db, [], 0);
      var scan := Scan(start, rows, ctx);
      if scan.Err? then (s, Err(scan.error))
      else
        ScanSeesWithinBatch(start, rows, ctx);
        ClaimCommit(s, rows, scan.value, fate)
  }

  /** The three ways a claim proper ends. */
  lemma ClaimDueIs(s: Store, ctx: Context, fate: Fate)
    requires ctx.policy.Valid()
    ensures var rows := ReadyBatch(s, ctx.now);
            var scan := Scan(Claimed(s.db, [], 0), rows, ctx);
            && (ctx.available == 0 ==> ClaimDue(s, ctx, fate) == (s, Ok([])))
            && (ctx.available > 0 && scan.Err? ==> ClaimDue(s, ctx, fate) == (s, Err(scan.error)))
            && (ctx.available > 0 && scan.Ok? ==>
                  scan.value.seen <= |rows| && ClaimDue(s, ctx, fate) == ClaimCommit(s, rows, scan.value, fate))
  {
    var start, rows := Claimed(s.db, [], 0), ReadyBatch(s, ctx.now);
    if Scan(start, rows, ctx).Ok? {
      ScanSeesWithinBatch(start, rows, ctx);
    }
  }

  /** Readings and commit fates met by the three transactions of one claim. */
  datatype Weather = Weather(first: Clock.Reading, recovery: Clock.Reading, expiry: Clock.Reading,
                             recoveryFate: Fate, expiryFate: Fate, fate: Fate)

  /** The order of a claim call, fixed once its clock reading is accepted. */
  datatype Order = Order(policy: Policy, limit: nat, live: set<nat>, now: nat, draws: seq<Draw>, serial: nat)

  function ThenClaim(expired: (Store, Result<nat, StoreError>), o: Order, fate: Fate)
    : (Store, Result<seq<Lease>, StoreError>)
    requires o.policy.Valid()
  {
    var (s, done) := expired;
    if done.Err? then (s, Err(done.error))
    else ClaimDue(s, ClaimContext(s, o.policy, o.limit, o.live, o.now, o.draws, o.serial), fate)
  }

  function ThenExpire(recovered: (Store, Result<nat, StoreError>), o: Order, w: Weather)
    : (Store, Result<seq<Lease>, StoreError>)
    requires o.policy.Valid()
  {
    var (s, done) := recovered;
    if done.Err? then (s, Err(done.error))
    else ThenClaim(Expire(s, BATCH, w.expiry, w.expiryFate), o, w.fate)
  }

  function ThenRecover(ticked: (Store, Result<nat, StoreError>), policy: Policy, limit: nat, live: set<nat>,
                       w: Weather, draws: seq<Draw>, serial: nat): (Store, Result<seq<Lease>, StoreError>)
    requires policy.Valid()
  {
    var (s, now) := ticked;
    if now.Err? then (s, Err(now.error))
    else ThenExpire(Recover(s, BATCH, live, w.recovery, w.recoveryFate),
                    Order(policy, limit, live, now.value, draws, serial), w)
  }

  function Claim(s: Store, policy: Policy, limit: nat, live: set<nat>, w: Weather,
                 draws: seq<Draw>, serial: nat): (Store, Result<seq<Lease>, StoreError>)
  {
    if !policy.Valid() || !(1 <= limit <= BATCH) then (s, Err(InvalidInput))
    else ThenRecover(Ticked(s, w.first), policy, limit, live, w, draws, serial)
  }

  // ---------------------------------------------------------------- one lease

  function Renew(s: Store, lease: Lease, seconds: nat, r: Clock.Reading, fate: Fate)
    : (Store, Result<(), StoreError>)
  {
    if !(1 <= seconds <= 3600) then (s, Err(InvalidInput))
    else
      var (s1, now) := Ticked(s, r);
      if now.Err? then (s1, Err(now.error))
      else if CheckLease(s1, lease).None? then (s1, Err(StaleLease))
      else
        var until := Later(now.value, seconds * 1000);
        if until.Err? then (s1, Err(until.error))
        else
          var d := s1.db.deliveries[lease.id];
          var kept := if d.leaseUntil.Some? && d.leaseUntil.value > until.value
                      then d.leaseUntil.value else until.value;
          Commit(s1, Put(s1.db, lease.id, d.(leaseUntil := Some(kept))), fate, ())
  }

  function MarkBody(s: Store, lease: Lease, fate: Fate): (Store, Result<(), StoreError>) {
    if CheckLease(s, lease).None? then (s, Err(StaleLease))
    else Commit(s, s.db.(leases := s.db.leases[lease.id := Body]), fate, ())
  }

  /** The state, code and reason a result maps to, or nothing when the pair is refused. */
  function Verdict(phase: Phase, outcome: QueueResult): Option<(State, Option<int>, Option<Reason>)> {
    match outcome
    case Accepted(code) =>
      if 200 <= code < 300 && phase == Body then Some((Delivered, Some(code), None)) else None
    case Temporary(code) =>
      if 400 <= code < 500 then Some((Deferred, Some(code), None)) else None
    case Permanent(code) =>
      if 500 <= code < 600 then Some((Failed, Some(code), Some(SmtpPermanent))) else None
    case ConnectionLost =>
      Some((if phase == Body then Uncertain else Deferred, None, None))
    case HoldBack => Some((State.Hold, None, Some(Content)))
    case Unavailable => if phase == Ready then Some((Deferred, None, None)) else None
  }

  function FinishedRow(d: Delivery, v: (State, Option<int>, Option<Reason>), next: int, due: int): Delivery {
    var state := if d.possiblyDelivered && v.0 != Delivered then Uncertain else v.0;
    d.(state := state, token := None, leaseUntil := None, lastCode := v.1, nextAttempt := next,
       reason := v.2, possiblyDelivered := state == Uncertain, noticeDue := due)
  }

  /** The report due time: the guarded clock, or its last trusted time once it has jumped. */
  function NoticeDue(s: Store, now: nat, r: Clock.Reading): (Store, Result<nat, StoreError>) {
    var (s1, guarded) := Ticked(s, r);
    if guarded == Err(ClockChanged) then
      (s1, Ok(if s1.rt.clock.last.Some? then s1.rt.clock.last.value else now))
    else (s1, guarded)
  }

  function Finish(s: Store, lease: Lease, outcome: QueueResult, r: Clock.Reading, guarded: Clock.Reading, fate: Fate)
    : (Store, Result<(), StoreError>)
  {
    if r.wall.None? then (s, Err(InvalidInput))
    else
      var now := r.wall.value;
      var (s1, due) := NoticeDue(s, now, guarded);
      if due.Err? then (s1, Err(due.error))
      else
        var phase := CheckLease(s1, lease);
        if phase.None? then (s1, Err(StaleLease))
        else
          var v := Verdict(phase.value, outcome);
          if v.None? then (s1, Err(InvalidInput))
          else
            var d := s1.db.deliveries[lease.id];
            var row := FinishedRow(d, v.value, SaturatingAdd(now, lease.retryMs), due.value);
            Commit(s1, Put(s1.db, lease.id, row).(leases := s1.db.leases - {lease.id}), fate, ())
  }

  // ---------------------------------------------------------------- administration

  function Log(db: Db, e: AdminEvent): Db { db.(admin := db.admin + [e]) }

  function HoldRow(s: Store, id: Id, r: Clock.Reading, fate: Fate): (Store, Result<(), StoreError>) {
    if r.wall.None? then (s, Err(InvalidInput))
    else if id !in s.db.deliveries || s.db.deliveries[id].route != Relay then (s, Err(NotFound))
    else
      var d := s.db.deliveries[id];
      if d.closedAt.Some? || !(d.state == Pending || d.state == Deferred || d.state == Uncertain
                               || d.state == State.Hold)
      then (s, Err(InvalidInput))
      else
        var row := d.(state := State.Hold, reason := Some(Manual),
                      possiblyDelivered := d.possiblyDelivered || d.state == Uncertain);
        Commit(s, Log(Put(s.db, id, row), AdminEvent(id, HoldAction, d.state, State.Hold, false, false)), fate, ())
  }

  function Retry(s: Store, id: Id, allowDuplicate: bool, extendExpired: bool, r: Clock.Reading, fate: Fate)
    : (Store, Result<(), StoreError>)
  {
    var (s1, now) := Ticked(s, r);
    if now.Err? then (s1, Err(now.error))
    else if id !in s1.db.deliveries || s1.db.deliveries[id].route != Relay
            || s1.db.deliveries[id].message !in s1.db.queued then (s1, Err(NotFound))
    else
      var d := s1.db.deliveries[id];
      if || !(d.state == Deferred || d.state == Uncertain || d.state == State.Hold)
         || d.closedAt.Some?
         || ((d.state == Uncertain || d.state == State.Hold) && !allowDuplicate)
         || (d.expires <= now.value && !extendExpired)
      then (s1, Err(InvalidInput))
      else
        var expires := if d.expires <= now.value then Later(now.value, s1.db.queued[d.message].maxAge * 1000)
                       else Ok(d.expires);
        if expires.Err? then (s1, Err(expires.error))
        else
          var row := d.(state := Pending, nextAttempt := now.value, expires := expires.value, reason := None);
          Commit(s1, Log(Put(s1.db, id, row),
                         AdminEvent(id, RetryAction, d.state, Pending, allowDuplicate, extendExpired)), fate, ())
  }

  predicate ValidNote(note: string) {
    1 <= |note| <= 512 && forall i :: 0 <= i < |note| ==> ' ' <= note[i] <= '~'
  }

  function CloseUnknown(s: Store, id: Id, note: string, r: Clock.Reading, fate: Fate)
    : (Store, Result<(), StoreError>)
  {
    if !ValidNote(note) || r.wall.None? then (s, Err(InvalidInput))
    else if id !in s.db.deliveries || s.db.deliveries[id].route != Relay then (s, Err(NotFound))
    else
      var d := s.db.deliveries[id];
      if !(d.state == Uncertain || d.state == State.Hold) || !d.possiblyDelivered || d.closedAt.Some?
      then (s, Err(InvalidInput))
      else
        Commit(s, Log(Put(s.db, id, d.(state := Uncertain, closedAt := Some(r.wall.value))),
                      AdminEvent(id, CloseAction, d.state, Uncertain, false, false)), fate, ())
  }
}
