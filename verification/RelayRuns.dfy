/** Every step of the relay keeps its invariant, so every run does. */
module RelayRuns {
  import opened Wrappers
  import opened Tables
  import opened Ordering
  import opened Moves
  import opened Transactions
  import opened RelaySystem
  import Acceptance
  import Clock
  import Notification
  import Queue

  // ---------------------------------------------------------------- the database steps

  lemma OwnersHoldRows(s: Sys)
    requires Good(s)
    ensures OwnedLeased(s.store.db, Owned(s))
    ensures Owned(s) <= Queue.Pruned(s.store, Live(s)).rt.active.Keys
  {
    forall id | id in Owned(s)
      ensures id in s.store.db.deliveries && s.store.db.deliveries[id].state == Leased
              && id in Queue.Pruned(s.store, Live(s)).rt.active
    {
      var n :| n in s.attempts && s.attempts[n].lease.id == id;
      assert AttemptOk(s, n) && n in Live(s);
    }
  }

  /** A sound transaction that leaves the owners alone, or prunes dead ones. */
  lemma IsStoreStep(s: Sys, t: Queue.Store)
    requires Sound(s.store.db, t.db, Owned(s)) && t.rt.lock == s.store.rt.lock
    requires t.rt.active == s.store.rt.active || t.rt.active == Queue.Pruned(s.store, Live(s)).rt.active
    ensures StoreStep(s, t)
  {
  }

  lemma StoredSweep(s: Sys, step: Step)
    ensures step.Expire? ==> Stored(s, step) == Queue.Expire(s.store, step.limit, step.r, step.fate).0
    ensures step.Recover? ==> Stored(s, step) == Queue.Recover(s.store, step.limit, Live(s), step.r, step.fate).0
  {
  }

  lemma StoredAdmin(s: Sys, step: Step)
    ensures step.HoldRow? ==> Stored(s, step) == Queue.HoldRow(s.store, step.id, step.r, step.fate).0
    ensures step.Retry? ==> Stored(s, step) == Queue.Retry(s.store, step.id, step.dup, step.extend, step.r, step.fate).0
    ensures step.Close? ==> Stored(s, step) == Queue.CloseUnknown(s.store, step.id, step.note, step.r, step.fate).0
  {
  }

  lemma StoredOtherwise(s: Sys, step: Step)
    ensures OfAttempt(step) || step.Claim? || step.Crash? || step.DropReader? ==> Stored(s, step) == s.store
  {
  }

  /** What the queue steps make of the store. */
  lemma StoredQueue(s: Sys, step: Step)
    ensures step.Expire? ==> Stored(s, step) == Queue.Expire(s.store, step.limit, step.r, step.fate).0
    ensures step.Recover? ==> Stored(s, step) == Queue.Recover(s.store, step.limit, Live(s), step.r, step.fate).0
    ensures step.HoldRow? ==> Stored(s, step) == Queue.HoldRow(s.store, step.id, step.r, step.fate).0
    ensures step.Retry? ==> Stored(s, step) == Queue.Retry(s.store, step.id, step.dup, step.extend, step.r, step.fate).0
    ensures step.Close? ==> Stored(s, step) == Queue.CloseUnknown(s.store, step.id, step.note, step.r, step.fate).0
    ensures OfAttempt(step) || step.Claim? || step.Crash? || step.DropReader? ==> Stored(s, step) == s.store
  {
    StoredSweep(s, step);
    StoredAdmin(s, step);
    StoredOtherwise(s, step);
  }

  lemma QueueStepSound(s: Sys, step: Step)
    requires DbOk(s.store.db) && OwnedLeased(s.store.db, Owned(s))
    requires Owned(s) <= Queue.Pruned(s.store, Live(s)).rt.active.Keys
    requires step.Expire? || step.Recover? || step.HoldRow? || step.Retry? || step.Close?
    ensures StoreStep(s, Stored(s, step))
  {
    var t, owned := s.store, Owned(s);
    match step {
      case Expire(limit, r, fate) =>
        ExpireSound(t, limit, r, fate, owned);
        IsStoreStep(s, Queue.Expire(t, limit, r, fate).0);
      case Recover(limit, r, fate) =>
        RecoverSound(t, limit, Live(s), r, fate, owned);
        IsStoreStep(s, Queue.Recover(t, limit, Live(s), r, fate).0);
      case HoldRow(id, r, fate) =>
        HoldSound(t, id, r, fate, owned);
        IsStoreStep(s, Queue.HoldRow(t, id, r, fate).0);
      case Retry(id, dup, extend, r, fate) =>
        RetrySound(t, id, dup, extend, r, fate, owned);
        IsStoreStep(s, Queue.Retry(t, id, dup, extend, r, fate).0);
      case Close(id, note, r, fate) =>
        CloseSound(t, id, note, r, fate, owned);
        IsStoreStep(s, Queue.CloseUnknown(t, id, note, r, fate).0);
    }
  }

  lemma QueueStepKeeps(s: Sys, step: Step)
    requires Good(s) && (step.Expire? || step.Recover? || step.HoldRow? || step.Retry? || step.Close?)
    ensures StoreStep(s, Stored(s, step))
  {
    OwnersHoldRows(s);
    QueueStepSound(s, step);
  }

  predicate MailStep(step: Step) {
    step.Accept? || step.Enqueue? || step.NoticeNext? || step.NoticePostpone? || step.NoticeCommit?
    || step.ChangeAccounts?
  }

  /** What the mail steps make of the store. */
  lemma StoredMail(s: Sys, step: Step)
    ensures step.Accept? ==>
              Stored(s, step)
              == s.store.(db := Acceptance.Accept(s.store.db, step.q, step.p, step.ids, step.r, step.fate).0)
    ensures step.Enqueue? ==>
              Stored(s, step)
              == s.store.(db := Acceptance.Enqueue(s.store.db, step.plan, step.p, step.ids, step.r, step.fate).0)
    ensures step.NoticeNext? ==>
              Stored(s, step)
              == Notification.Next(s.store, step.policy, step.report, step.size, step.staged, step.r, step.again).0
    ensures step.NoticePostpone? ==> Stored(s, step) == Notification.Postpone(s.store, step.id, step.r).0
    ensures step.NoticeCommit? ==>
              Stored(s, step)
              == Notification.CommitReport(s.store, step.notice, step.p, step.delivery, step.r, step.fate).0
    ensures step.ChangeAccounts? ==>
              Stored(s, step).rt == s.store.rt
              && (Stored(s, step).db == s.store.db || Changed(s.store.db, step.change) == Ok(Stored(s, step).db))
  {
  }

  lemma AcceptKeeps(s: Sys, step: Step)
    requires DbOk(s.store.db) && (step.Accept? || step.Enqueue?)
    ensures StoreStep(s, Stored(s, step))
  {
    StoredMail(s, step);
    if step.Accept? {
      AcceptSound(s.store.db, step.q, step.p, step.ids, step.r, step.fate, Owned(s));
    } else {
      EnqueueSound(s.store.db, step.plan, step.p, step.ids, step.r, step.fate, Owned(s));
    }
    IsStoreStep(s, Stored(s, step));
  }

  lemma ChangeKeeps(s: Sys, step: Step)
    requires DbOk(s.store.db) && step.ChangeAccounts?
    ensures StoreStep(s, Stored(s, step))
  {
    StoredMail(s, step);
    if Stored(s, step).db == s.store.db {
      NothingHappens(s.store.db, Owned(s));
    } else {
      ChangeSound(s.store.db, step.change, Owned(s));
    }
    IsStoreStep(s, Stored(s, step));
  }

  lemma NoticeKeeps(s: Sys, step: Step)
    requires DbOk(s.store.db) && (step.NoticeNext? || step.NoticePostpone? || step.NoticeCommit?)
    ensures StoreStep(s, Stored(s, step))
  {
    StoredMail(s, step);
    if step.NoticeNext? {
      NextSound(s.store, step.policy, step.report, step.size, step.staged, step.r, step.again, Owned(s));
    } else if step.NoticePostpone? {
      PostponeSound(s.store, step.id, step.r, Owned(s));
    } else {
      CommitReportSound(s.store, step.notice, step.p, step.delivery, step.r, step.fate, Owned(s));
    }
    IsStoreStep(s, Stored(s, step));
  }

  lemma MailStepKeeps(s: Sys, step: Step)
    requires DbOk(s.store.db) && MailStep(step)
    ensures StoreStep(s, Stored(s, step))
  {
    if step.Accept? || step.Enqueue? {
      AcceptKeeps(s, step);
    } else if step.ChangeAccounts? {
      ChangeKeeps(s, step);
    } else {
      NoticeKeeps(s, step);
    }
  }

  // ---------------------------------------------------------------- claiming

  lemma TickKeeps(s: Sys, r: Clock.Reading)
    requires Good(s)
    ensures Good(s.(store := Queue.Ticked(s.store, r).0))
  {
    NothingHappens(s.store.db, Owned(s));
    StoreStepKeeps(s, Queue.Ticked(s.store, r).0);
  }

  /** A lease for a row that is leased to nobody yet. */
  ghost predicate Fits(s: Sys, l: Queue.Lease) {
    && l.serial == s.serial && l.id !in s.store.rt.active && Queue.CheckLease(s.store, l) == Some(Ready)
    && forall n :: n in s.issued && s.issued[n].id == l.id ==> s.issued[n].generation < l.generation
  }

  function Register(s: Sys, l: Queue.Lease): Sys {
    s.(store := s.store.(rt := s.store.rt.(active := s.store.rt.active[l.id := Queue.Guard(l.serial, l.domain)])))
  }

  function HandOver(s: Sys, l: Queue.Lease): Sys { IssueOne(Register(s, l), l) }

  lemma HandOverWires(s: Sys, l: Queue.Lease)
    requires Wired(s) && Fits(s, l)
    ensures Wired(HandOver(s, l))
  {
    assert Live(HandOver(s, l)) == Live(s) + {l.serial};
  }

  lemma HandOverHolds(s: Sys, l: Queue.Lease)
    requires Wired(s) && Held(s) && Honest(s) && Fits(s, l)
    ensures Held(HandOver(s, l))
  {
    var s' := HandOver(s, l);
    forall n | n in s'.attempts ensures AttemptOk(s', n) {
      if n != l.serial {
        assert AttemptOk(s, n);
        assert Queue.CheckLease(s'.store, s.attempts[n].lease) == Queue.CheckLease(s.store, s.attempts[n].lease);
      }
    }
  }

  lemma HandOverBounds(s: Sys, l: Queue.Lease)
    requires Wired(s) && Honest(s) && Bounded(s) && Fits(s, l)
    ensures Bounded(HandOver(s, l))
  {
    var s' := HandOver(s, l);
    assert l.serial !in s.dots;
    forall id | id in s'.store.db.deliveries
      ensures |Unresolved(s', id)| <= Consents(s'.store.db.admin, id) + Slack(s', id)
    {
      assert Unresolved(s', id) == Unresolved(s, id);
      if DottedNow(s, id) {
        var n :| n in s.dots && n in s.issued && s.issued[n].id == id
                 && LeasedTo(ViewOf(s.store.db, id), s.issued[n].generation);
        assert n in s'.dots && s'.issued[n] == s.issued[n];
      }
    }
  }

  lemma HandOverNumbers(s: Sys, l: Queue.Lease)
    requires Wired(s) && Numbered(s) && Honest(s) && Fits(s, l)
    ensures Numbered(HandOver(s, l)) && Honest(HandOver(s, l))
  {
    var s' := HandOver(s, l);
    forall m, n | m in s'.issued && n in s'.issued && m != n && s'.issued[m].id == s'.issued[n].id
      ensures s'.issued[m].generation != s'.issued[n].generation
    {
      assert m != l.serial ==> m in s.issued && s'.issued[m] == s.issued[m];
      assert n != l.serial ==> n in s.issued && s'.issued[n] == s.issued[n];
    }
    forall n | n in s'.dots && s'.issued[n].id in s'.store.db.deliveries
      ensures Accounted(ViewOf(s'.store.db, s'.issued[n].id), s'.issued[n].generation, n in s'.refused)
    {
      assert n in s.dots && s'.issued[n] == s.issued[n];
    }
  }

  lemma HandOverKeeps(s: Sys, l: Queue.Lease)
    requires Good(s) && Fits(s, l)
    ensures Good(HandOver(s, l))
  {
    HandOverWires(s, l);
    HandOverHolds(s, l);
    HandOverNumbers(s, l);
    HandOverBounds(s, l);
  }

  /** The leases of one scan, against the store the scan committed. */
  ghost predicate AllFit(s: Sys, leases: seq<Queue.Lease>) {
    && (forall i, j :: 0 <= i < j < |leases| ==> leases[i].id != leases[j].id)
    && forall i :: 0 <= i < |leases| ==> Fits(s.(serial := s.serial + i), leases[i])
  }

  /** All leases of a claim, one after the other. */
  function HandOverAll(s: Sys, leases: seq<Queue.Lease>): Sys
    decreases |leases|
  {
    if leases == [] then s else HandOverAll(HandOver(s, leases[0]), leases[1..])
  }

  lemma {:induction false} IssueIgnoresStore(s: Sys, t: Queue.Store, leases: seq<Queue.Lease>)
    ensures Issue(s.(store := t), leases) == Issue(s, leases).(store := t)
    decreases |leases|
  {
    if leases != [] {
      IssueIgnoresStore(IssueOne(s, leases[0]), t, leases[1..]);
    }
  }

  /** Registering all and then issuing all is handing over one by one. */
  lemma {:induction false} HandOverAllIssues(s: Sys, leases: seq<Queue.Lease>)
    ensures HandOverAll(s, leases)
            == Issue(s.(store := s.store.(rt := s.store.rt.(active := Queue.Registered(s.store.rt.active, leases)))),
                     leases)
    decreases |leases|
  {
    if leases != [] {
      var s1 := HandOver(s, leases[0]);
      HandOverAllIssues(s1, leases[1..]);
      var t := s1.store.(rt := s1.store.rt.(active := Queue.Registered(s1.store.rt.active, leases[1..])));
      IssueIgnoresStore(s1, t, leases[1..]);
      IssueIgnoresStore(IssueOne(s, leases[0]), t, leases[1..]);
      IssueIgnoresStore(s, t, leases);
    }
  }

  lemma RestFits(s: Sys, leases: seq<Queue.Lease>)
    requires leases != [] && AllFit(s, leases)
    ensures AllFit(HandOver(s, leases[0]), leases[1..])
  {
    var s1 := HandOver(s, leases[0]);
    forall i | 0 <= i < |leases| - 1 ensures Fits(s1.(serial := s1.serial + i), leases[1..][i]) {
      assert Fits(s.(serial := s.serial + (i + 1)), leases[i + 1]);
      assert leases[0].id != leases[i + 1].id;
    }
  }

  lemma {:induction false} HandOverAllKeeps(s: Sys, leases: seq<Queue.Lease>)
    requires Good(s) && AllFit(s, leases)
    ensures Good(HandOverAll(s, leases))
    decreases |leases|
  {
    if leases != [] {
      assert Fits(s.(serial := s.serial + 0), leases[0]);
      HandOverKeeps(s, leases[0]);
      RestFits(s, leases);
      HandOverAllKeeps(HandOver(s, leases[0]), leases[1..]);
    }
  }

  /** The scanned transaction, as a step of the store that keeps its owners. */
  lemma ScanIsStep(s: Sys, c: Queue.Claimed, ctx: Queue.Context, t: Queue.Store)
    requires Good(s) && Scanned(s.store.db, c, ctx) && ctx.active == s.store.rt.active
    requires t.db == c.tx && t.rt.active == s.store.rt.active && t.rt.lock == s.store.rt.lock
    ensures StoreStep(s, t)
  {
    forall id | id in Owned(s) ensures id in ctx.active {
      var n :| n in s.attempts && s.attempts[n].lease.id == id;
      assert n in Live(s);
    }
    ScannedSound(s.store.db, c, ctx, Owned(s));
  }

  lemma NamedFits(s: Sys, l: Queue.Lease, tx: Db, ctx: Queue.Context, i: nat, t: Queue.Store)
    requires Numbered(s) && l.id in s.store.db.deliveries && l.id in tx.deliveries
    requires Names(l, s.store.db, tx, ctx, i) && ctx.active == s.store.rt.active
    requires ctx.lock == s.store.rt.lock && ctx.serial == s.serial
    requires t.db == tx && t.rt.active == s.store.rt.active && t.rt.lock == s.store.rt.lock
    ensures Fits(s.(store := t, serial := s.serial + i), l)
  {
    assert ViewOf(tx, l.id).phase == Some(Ready);
  }

  lemma ScanFits(s: Sys, c: Queue.Claimed, ctx: Queue.Context, t: Queue.Store)
    requires Numbered(s) && Scanned(s.store.db, c, ctx) && ctx.active == s.store.rt.active
    requires ctx.lock == s.store.rt.lock && ctx.serial == s.serial
    requires t.db == c.tx && t.rt.active == s.store.rt.active && t.rt.lock == s.store.rt.lock
    ensures AllFit(s.(store := t), c.leases)
  {
    var s' := s.(store := t);
    forall i | 0 <= i < |c.leases| ensures Fits(s'.(serial := s'.serial + i), c.leases[i]) {
      assert c.leases[i].id in s.store.db.deliveries;
      NamedFits(s, c.leases[i], c.tx, ctx, i, t);
    }
  }

  lemma ScannedKeeps(s: Sys, c: Queue.Claimed, ctx: Queue.Context, t: Queue.Store)
    requires Good(s) && Scanned(s.store.db, c, ctx) && ctx.active == s.store.rt.active
    requires ctx.lock == s.store.rt.lock && ctx.serial == s.serial
    requires t.db == c.tx && t.rt.active == s.store.rt.active && t.rt.lock == s.store.rt.lock
    ensures Good(s.(store := t)) && Good(HandOverAll(s.(store := t), c.leases))
  {
    ScanIsStep(s, c, ctx, t);
    StoreStepKeeps(s, t);
    ScanFits(s, c, ctx, t);
    HandOverAllKeeps(s.(store := t), c.leases);
  }

  /** Leases are handed over exactly when their commit is confirmed. */
  function Answered(s: Sys, answer: (Queue.Store, Result<seq<Queue.Lease>, StoreError>)): Sys {
    if answer.1.Err? then s.(store := answer.0) else Issue(s.(store := answer.0), answer.1.value)
  }

  /** What is left once a claim's commit is confirmed. */
  lemma ConfirmedIs(s: Sys, rows: seq<Key>, c: Queue.Claimed) returns (t: Queue.Store)
    requires c.seen <= |rows|
    ensures t.db == c.tx && t.rt.active == s.store.rt.active && t.rt.lock == s.store.rt.lock
    ensures Answered(s, Queue.ClaimCommit(s.store, rows, c, Confirmed)) == HandOverAll(s.(store := t), c.leases)
  {
    t := Queue.Store(c.tx, s.store.rt.(readyCursor := Queue.NextCursor(rows, c.seen)));
    HandOverAllIssues(s.(store := t), c.leases);
  }

  lemma CommitKeeps(s: Sys, rows: seq<Key>, c: Queue.Claimed, ctx: Queue.Context, fate: Fate)
    requires Good(s) && Scanned(s.store.db, c, ctx) && ctx.active == s.store.rt.active && c.seen <= |rows|
    requires ctx.lock == s.store.rt.lock && ctx.serial == s.serial
    ensures Good(Answered(s, Queue.ClaimCommit(s.store, rows, c, fate)))
  {
    match fate {
      case Confirmed =>
        var t := ConfirmedIs(s, rows, c);
        ScannedKeeps(s, c, ctx, t);
      case AppliedUnknown =>
        ScannedKeeps(s, c, ctx, s.store.(db := c.tx));
      case LostUnknown =>
    }
  }

  lemma ClaimDueKeeps(s: Sys, ctx: Queue.Context, fate: Fate)
    requires ctx.policy.Valid() && Good(s) && ctx.active == s.store.rt.active
    requires ctx.lock == s.store.rt.lock && ctx.serial == s.serial
    ensures Good(Answered(s, Queue.ClaimDue(s.store, ctx, fate)))
  {
    var rows, start := Queue.ReadyBatch(s.store, ctx.now), Queue.Claimed(s.store.db, [], 0);
    var scan := Queue.Scan(start, rows, ctx);
    if ctx.available == 0 || scan.Err? {
      assert Answered(s, Queue.ClaimDue(s.store, ctx, fate)) == s;
    } else {
      Queue.ScanSeesWithinBatch(start, rows, ctx);
      assert Scanned(s.store.db, scan.value, ctx) by {
        ClaimScans(s.store, ctx);
      }
      assert Queue.ClaimDue(s.store, ctx, fate) == Queue.ClaimCommit(s.store, rows, scan.value, fate);
      CommitKeeps(s, rows, scan.value, ctx, fate);
    }
  }

  lemma ThenClaimKeeps(s: Sys, expired: (Queue.Store, Result<nat, StoreError>), o: Queue.Order, fate: Fate)
    requires o.policy.Valid() && o.serial == s.serial && Good(s.(store := expired.0))
    ensures Good(Answered(s, Queue.ThenClaim(expired, o, fate)))
  {
    var t := expired.0;
    ClaimDueKeeps(s.(store := t), Queue.ClaimContext(t, o.policy, o.limit, o.live, o.now, o.draws, o.serial), fate);
  }

  lemma ExpiryKeeps(s: Sys, limit: nat, r: Clock.Reading, fate: Fate)
    requires Good(s)
    ensures Good(s.(store := Queue.Expire(s.store, limit, r, fate).0))
  {
    QueueStepKeeps(s, Step.Expire(limit, r, fate));
    StoreStepKeeps(s, Stored(s, Step.Expire(limit, r, fate)));
  }

  lemma RecoveryKeeps(s: Sys, limit: nat, r: Clock.Reading, fate: Fate)
    requires Good(s)
    ensures Good(s.(store := Queue.Recover(s.store, limit, Live(s), r, fate).0))
  {
    QueueStepKeeps(s, Step.Recover(limit, r, fate));
    StoreStepKeeps(s, Stored(s, Step.Recover(limit, r, fate)));
  }

  lemma ThenExpireKeeps(s: Sys, recovered: (Queue.Store, Result<nat, StoreError>), o: Queue.Order, w: Queue.Weather)
    requires o.policy.Valid() && o.serial == s.serial && Good(s.(store := recovered.0))
    ensures Good(Answered(s, Queue.ThenExpire(recovered, o, w)))
  {
    ExpiryKeeps(s.(store := recovered.0), Queue.BATCH, w.expiry, w.expiryFate);
    ThenClaimKeeps(s, Queue.Expire(recovered.0, Queue.BATCH, w.expiry, w.expiryFate), o, w.fate);
  }

  lemma RecoverFirst(ticked: (Queue.Store, Result<nat, StoreError>), policy: Queue.Policy, limit: nat, live: set<nat>,
                     w: Queue.Weather, draws: seq<Queue.Draw>, serial: nat)
    returns (recovered: (Queue.Store, Result<nat, StoreError>))
    requires policy.Valid() && ticked.1.Ok?
    ensures recovered == Queue.Recover(ticked.0, Queue.BATCH, live, w.recovery, w.recoveryFate)
    ensures Queue.ThenRecover(ticked, policy, limit, live, w, draws, serial)
            == Queue.ThenExpire(recovered, Queue.Order(policy, limit, live, ticked.1.value, draws, serial), w)
  {
    recovered := Queue.Recover(ticked.0, Queue.BATCH, live, w.recovery, w.recoveryFate);
  }

  lemma RecoveredKeeps(s: Sys, t: Queue.Store, r: Clock.Reading, fate: Fate)
    requires Good(s.(store := t))
    ensures Good(s.(store := Queue.Recover(t, Queue.BATCH, Live(s), r, fate).0))
  {
    assert Live(s.(store := t)) == Live(s);
    RecoveryKeeps(s.(store := t), Queue.BATCH, r, fate);
  }

  lemma ThenRecoverKeeps(s: Sys, ticked: (Queue.Store, Result<nat, StoreError>), policy: Queue.Policy, limit: nat,
                         w: Queue.Weather, draws: seq<Queue.Draw>)
    requires policy.Valid() && Good(s.(store := ticked.0)) && ticked.1.Ok?
    ensures Good(Answered(s, Queue.ThenRecover(ticked, policy, limit, Live(s), w, draws, s.serial)))
  {
    var recovered := RecoverFirst(ticked, policy, limit, Live(s), w, draws, s.serial);
    RecoveredKeeps(s, ticked.0, w.recovery, w.recoveryFate);
    ThenExpireKeeps(s, recovered, Queue.Order(policy, limit, Live(s), ticked.1.value, draws, s.serial), w);
  }

  lemma ClaimKeeps(policy: Queue.Policy, s: Sys, limit: nat, w: Queue.Weather, draws: seq<Queue.Draw>)
    requires Good(s)
    ensures Good(Claimed(policy, s, limit, w, draws))
  {
    TickKeeps(s, w.first);
    if policy.Valid() && 1 <= limit <= Queue.BATCH {
      var ticked := Queue.Ticked(s.store, w.first);
      if ticked.1.Ok? {
        ThenRecoverKeeps(s, ticked, policy, limit, w, draws);
      }
    }
  }
}
