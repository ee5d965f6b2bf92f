/** What a lease tells the SMTP client to send, to whom and on whose behalf (Store::queue_claim). */
module Assignments {
  import opened Wrappers
  import opened Tables
  import opened Ordering
  import opened Moves
  import Addresses
  import Backlog
  import Fairness
  import Growth
  import Guarantees
  import Permanence
  import Queue
  import RelaySystem
  import Transactions

  /** The lease repeats its row, the row's message, its queue settings and its blob, field by field. */
  predicate Tells(l: Queue.Lease, db: Db) {
    && l.id in db.deliveries
    && var d := db.deliveries[l.id];
       && d.message in db.messages && d.message in db.queued && db.messages[d.message].blob in db.blobs
       && var m := db.messages[d.message];
          && l.message == d.message && l.recipient == d.recipient && l.domain == Addresses.DomainOf(d.recipient)
          && (if m.sender == "" then l.sender == None else l.sender == Some(m.sender))
          && l.body == db.queued[d.message].body
          && l.blob == m.blob && l.storedSize == db.blobs[m.blob].size
          && (l.submission <==> m.source == Submission)
  }

  /** The leased row names the lease; its end and the delay after a failure follow the policy. */
  predicate Timed(l: Queue.Lease, d: Delivery, policy: Queue.Policy, now: nat)
    requires policy.Valid()
  {
    && d.state == Leased && d.token == Some(l.token) && d.generation == l.generation && d.attempts >= 1
    && d.leaseUntil == Some(now + policy.leaseSeconds * 1000)
    && var base := policy.retrySeconds[Min(d.attempts - 1, |policy.retrySeconds| - 1)] * 1000;
       base <= l.retryMs <= base + base * policy.jitterPercent / 100
  }

  /** Mail never changes, so what a lease says stays true. */
  lemma TellsOnward(l: Queue.Lease, db: Db, next: Db)
    requires Tells(l, db) && Transactions.Onward(db, next)
    ensures Tells(l, next)
  {
    assert Transactions.RowOnward(db.deliveries[l.id], next.deliveries[l.id]);
  }

  // ---------------------------------------------------------------- the candidate loop

  ghost predicate Assigned(base: Db, c: Queue.Claimed, ctx: Queue.Context)
    requires ctx.policy.Valid()
  {
    forall i :: 0 <= i < |c.leases| ==>
      && Tells(c.leases[i], base) && c.leases[i].id in c.tx.deliveries
      && Timed(c.leases[i], c.tx.deliveries[c.leases[i].id], ctx.policy, ctx.now)
  }

  /** The tables a lease is made from. */
  predicate SameMessages(base: Db, tx: Db) {
    tx.messages == base.messages && tx.queued == base.queued && tx.blobs == base.blobs
  }

  lemma LeasingIs(c: Queue.Claimed, id: Id, recipient: string, ctx: Queue.Context)
    requires ctx.policy.Valid() && id in c.tx.deliveries && Queue.Leasing(c, id, recipient, ctx).Ok?
    ensures var next, d := Queue.Leasing(c, id, recipient, ctx).value, c.tx.deliveries[id];
            && d.message in c.tx.messages && d.message in c.tx.queued && c.tx.messages[d.message].blob in c.tx.blobs
            && var m := c.tx.messages[d.message];
               var l := Queue.LeaseOf(id, d.(recipient := recipient), m, c.tx.queued[d.message],
                                      c.tx.blobs[m.blob].size, |c.leases|, ctx);
               && next.leases == c.leases + [l] && id in next.tx.deliveries
               && next.tx.deliveries[id] == Queue.LeasedRow(d, l.token, ctx.now + ctx.policy.leaseSeconds * 1000)
  {
  }

  lemma LeaseTells(base: Db, d: Delivery, id: Id, i: nat, ctx: Queue.Context)
    requires ctx.policy.Valid() && id in base.deliveries && base.deliveries[id] == d
    requires d.message in base.messages && d.message in base.queued && base.messages[d.message].blob in base.blobs
    ensures var m := base.messages[d.message];
            Tells(Queue.LeaseOf(id, d, m, base.queued[d.message], base.blobs[m.blob].size, i, ctx), base)
  {
  }

  lemma LeaseTimed(l: Queue.Lease, d: Delivery, id: Id, m: Message, q: QueueMeta, size: nat, i: nat, ctx: Queue.Context)
    requires ctx.policy.Valid() && l == Queue.LeaseOf(id, d, m, q, size, i, ctx)
    ensures l.id == id
    ensures Timed(l, Queue.LeasedRow(d, l.token, ctx.now + ctx.policy.leaseSeconds * 1000), ctx.policy, ctx.now)
  {
  }

  lemma LeasingTells(base: Db, c: Queue.Claimed, id: Id, ctx: Queue.Context)
    requires ctx.policy.Valid() && id in c.tx.deliveries && id in base.deliveries && SameMessages(base, c.tx)
    requires c.tx.deliveries[id] == base.deliveries[id]
    requires Queue.Leasing(c, id, base.deliveries[id].recipient, ctx).Ok?
    ensures var next := Queue.Leasing(c, id, base.deliveries[id].recipient, ctx).value;
            && |next.leases| == |c.leases| + 1 && next.leases[..|c.leases|] == c.leases
            && var l := next.leases[|c.leases|];
               l.id == id && Tells(l, base) && id in next.tx.deliveries
               && Timed(l, next.tx.deliveries[id], ctx.policy, ctx.now)
  {
    var d := base.deliveries[id];
    LeasingIs(c, id, d.recipient, ctx);
    assert d.(recipient := d.recipient) == d;
    var m := base.messages[d.message];
    var l := Queue.LeaseOf(id, d, m, base.queued[d.message], base.blobs[m.blob].size, |c.leases|, ctx);
    LeaseTells(base, d, id, |c.leases|, ctx);
    LeaseTimed(l, d, id, m, base.queued[d.message], base.blobs[m.blob].size, |c.leases|, ctx);
  }

  lemma AssignedStays(base: Db, c: Queue.Claimed, next: Queue.Claimed, id: Id, ctx: Queue.Context, i: nat)
    requires ctx.policy.Valid() && Assigned(base, c, ctx) && OnlyRow(c.tx, next.tx, id)
    requires i < |c.leases| && c.leases[i].id != id
    ensures Tells(c.leases[i], base) && c.leases[i].id in next.tx.deliveries
    ensures Timed(c.leases[i], next.tx.deliveries[c.leases[i].id], ctx.policy, ctx.now)
  {
    var x := c.leases[i].id;
    assert x in c.tx.deliveries && ViewOf(next.tx, x).d == ViewOf(c.tx, x).d;
  }

  lemma ExamineAssigns(base: Db, c: Queue.Claimed, id: Id, ctx: Queue.Context)
    requires ctx.policy.Valid() && Queue.Examine(c, id, ctx).Ok? && Assigned(base, c, ctx) && SameMessages(base, c.tx)
    requires id in c.tx.deliveries && id in base.deliveries && c.tx.deliveries[id] == base.deliveries[id]
    requires Addresses.IsAddress(base.deliveries[id].recipient)
    requires forall i :: 0 <= i < |c.leases| ==> c.leases[i].id != id
    ensures Assigned(base, Queue.Examine(c, id, ctx).value, ctx)
  {
    ExamineIs(c, id, ctx);
    var next := Queue.Examine(c, id, ctx).value;
    assert OnlyRow(c.tx, next.tx, id) by {
      ExamineCases(c, id, ctx);
    }
    if next.leases != c.leases {
      LeasingTells(base, c, id, ctx);
    }
    forall i | 0 <= i < |c.leases|
      ensures next.leases[i] == c.leases[i] && Tells(c.leases[i], base) && c.leases[i].id in next.tx.deliveries
              && Timed(c.leases[i], next.tx.deliveries[c.leases[i].id], ctx.policy, ctx.now)
    {
      if next.leases != c.leases {
        EarlierLease(c, next, i);
      }
      AssignedStays(base, c, next, id, ctx, i);
    }
  }

  lemma {:induction false} ScanAssigns(base: Db, c: Queue.Claimed, rows: seq<Key>, ctx: Queue.Context)
    requires ctx.policy.Valid() && RowsOk(base) && Growth.Linked(base) && Assigned(base, c, ctx)
    requires Scanned(base, c, ctx) && Untouched(base, c, rows) && Queue.Scan(c, rows, ctx).Ok?
    ensures Assigned(base, Queue.Scan(c, rows, ctx).value, ctx)
    decreases |rows|
  {
    if rows != [] && |c.leases| < ctx.available {
      var id, next := rows[0].id, Queue.Examine(c, rows[0].id, ctx).value;
      assert rows[0] in rows;
      CandidateReads(base, c, id);
      ExamineAssigns(base, c, id, ctx);
      ExamineCases(c, id, ctx);
      ExamineScans(base, c, next, rows, ctx);
      ScanAssigns(base, next, rows[1..], ctx);
    }
  }

  lemma CandidateReads(base: Db, c: Queue.Claimed, id: Id)
    requires Growth.Linked(base) && id in base.deliveries && Queue.Waiting(base.deliveries[id])
    requires id in c.tx.deliveries && ViewOf(c.tx, id) == ViewOf(base, id)
    ensures c.tx.deliveries[id] == base.deliveries[id] && Addresses.IsAddress(base.deliveries[id].recipient)
  {
    assert ViewOf(c.tx, id).d == ViewOf(base, id).d;
    assert Growth.DeliveryOk(base, base.deliveries[id]);
  }

  /** The leases of a claim proper, and the rows it commits. */
  lemma ClaimDueAssigns(s: Queue.Store, ctx: Queue.Context, fate: Fate)
    requires ctx.policy.Valid() && Transactions.DbOk(s.db) && Queue.ClaimDue(s, ctx, fate).1.Ok?
    ensures var (t, answer) := Queue.ClaimDue(s, ctx, fate);
            forall i :: 0 <= i < |answer.value| ==>
              && Tells(answer.value[i], s.db) && answer.value[i].id in t.db.deliveries
              && Timed(answer.value[i], t.db.deliveries[answer.value[i].id], ctx.policy, ctx.now)
  {
    Queue.ClaimDueIs(s, ctx, fate);
    if ctx.available > 0 {
      var rows := Queue.ReadyBatch(s, ctx.now);
      ReadyBatchWaits(s, ctx.now);
      StartScanned(s.db, rows, ctx);
      ScanAssigns(s.db, Queue.Claimed(s.db, [], 0), rows, ctx);
    }
  }

  lemma {:induction false} ScanFills(c: Queue.Claimed, rows: seq<Key>, ctx: Queue.Context)
    requires ctx.policy.Valid() && Queue.Scan(c, rows, ctx).Ok?
    ensures var f := Queue.Scan(c, rows, ctx).value; |f.leases| >= ctx.available || f.seen == c.seen + |rows|
    decreases |rows|
  {
    if rows != [] && |c.leases| < ctx.available {
      Fairness.ExamineTouchesOne(c, rows[0].id, ctx);
      ScanFills(Queue.Examine(c, rows[0].id, ctx).value, rows[1..], ctx);
    }
  }

  /** A confirmed claim proper uses every free slot its limit allows, or has examined its whole batch. */
  lemma ClaimFills(s: Queue.Store, policy: Queue.Policy, limit: nat, live: set<nat>, now: nat, draws: seq<Queue.Draw>,
                   serial: nat)
    requires policy.Valid() && Transactions.DbOk(s.db)
    requires Queue.ClaimDue(s, Queue.ClaimContext(s, policy, limit, live, now, draws, serial), Confirmed).1.Ok?
    ensures var ctx := Queue.ClaimContext(s, policy, limit, live, now, draws, serial);
            var leases := Queue.ClaimDue(s, ctx, Confirmed).1.value;
            var scan := Queue.Scan(Queue.Claimed(s.db, [], 0), Queue.ReadyBatch(s, now), ctx);
            && |leases| <= limit && (leases != [] ==> |leases| + |s.rt.active| <= policy.concurrency)
            && (|leases| < limit && |leases| + |s.rt.active| < policy.concurrency ==>
                  scan.Ok? && scan.value.seen == |Queue.ReadyBatch(s, now)|)
  {
    var ctx := Queue.ClaimContext(s, policy, limit, live, now, draws, serial);
    Queue.ClaimDueIs(s, ctx, Confirmed);
    var start, rows := Queue.Claimed(s.db, [], 0), Queue.ReadyBatch(s, now);
    if ctx.available > 0 {
      ScanFills(start, rows, ctx);
      ClaimScans(s, ctx);
    }
  }

  // ---------------------------------------------------------------- a whole call

  lemma BatchesSound(c: Backlog.Call)
    requires Transactions.DbOk(c.store.db) && Backlog.Made(c).1.Ok?
    ensures Transactions.DbOk(Backlog.Scanning(c).db)
  {
    Backlog.ClaimParts(c);
    var ticked := Queue.Ticked(c.store, c.w.first).0;
    Transactions.RecoverSound(ticked, Queue.BATCH, c.live, c.w.recovery, c.w.recoveryFate, {});
    Transactions.ExpireSound(Backlog.Recovered(c), Queue.BATCH, c.w.expiry, c.w.expiryFate, {});
  }

  /**
   * Every lease handed out by a call of `queue_claim` repeats its row, message, queue settings and blob as
   * committed, and its end and its retry delay are those of the policy.
   */
  lemma ClaimAssigns(c: Backlog.Call)
    requires Transactions.DbOk(c.store.db) && Backlog.Made(c).1.Ok?
    ensures c.policy.Valid() && Queue.Ticked(c.store, c.w.first).1.Ok?
    ensures var (t, answer) := Backlog.Made(c);
            forall i :: 0 <= i < |answer.value| ==>
              && Tells(answer.value[i], t.db)
              && Timed(answer.value[i], t.db.deliveries[answer.value[i].id], c.policy,
                       Queue.Ticked(c.store, c.w.first).1.value)
  {
    Backlog.ClaimParts(c);
    var s, now := Backlog.Scanning(c), Queue.Ticked(c.store, c.w.first).1.value;
    var o := Queue.Order(c.policy, c.limit, c.live, now, c.draws, c.serial);
    Backlog.ExpireParts(Queue.Recover(Queue.Ticked(c.store, c.w.first).0, Queue.BATCH, c.live, c.w.recovery,
                                      c.w.recoveryFate), o, c.w);
    BatchesSound(c);
    var ctx := Queue.ClaimContext(s, c.policy, c.limit, c.live, now, c.draws, c.serial);
    ClaimDueAssigns(s, ctx, c.w.fate);
    Permanence.ClaimDueOnward(s, ctx, c.w.fate);
    forall i | 0 <= i < |Backlog.Made(c).1.value| ensures Tells(Backlog.Made(c).1.value[i], Backlog.Made(c).0.db) {
      TellsOnward(Backlog.Made(c).1.value[i], s.db, Backlog.Made(c).0.db);
    }
  }

  // ---------------------------------------------------------------- every run

  ghost predicate AllTell(s: RelaySystem.Sys) { forall n :: n in s.issued ==> Tells(s.issued[n], s.store.db) }

  lemma {:induction false} IssueAdds(s: RelaySystem.Sys, leases: seq<Queue.Lease>, n: nat)
    requires n in RelaySystem.Issue(s, leases).issued
    ensures (n in s.issued && RelaySystem.Issue(s, leases).issued[n] == s.issued[n])
            || RelaySystem.Issue(s, leases).issued[n] in leases
    decreases |leases|
  {
    if leases != [] {
      IssueAdds(RelaySystem.IssueOne(s, leases[0]), leases[1..], n);
      assert leases[0] in leases && forall l :: l in leases[1..] ==> l in leases;
    }
  }

  lemma ClaimedTells(policy: Queue.Policy, s: RelaySystem.Sys, limit: nat, w: Queue.Weather, draws: seq<Queue.Draw>,
                     n: nat)
    requires RelaySystem.Good(s) && AllTell(s)
    requires n in RelaySystem.Claimed(policy, s, limit, w, draws).issued
    ensures var t := RelaySystem.Claimed(policy, s, limit, w, draws); Tells(t.issued[n], t.store.db)
  {
    var c := Backlog.Call(s.store, policy, limit, RelaySystem.Live(s), w, draws, s.serial);
    var (t, leases) := Backlog.Made(c);
    Permanence.ClaimedIs(policy, s, limit, w, draws);
    Permanence.ClaimOnward(s.store, policy, limit, RelaySystem.Live(s), w, draws, s.serial);
    if n in s.issued {
      TellsOnward(s.issued[n], s.store.db, t.db);
    }
    if leases.Ok? {
      IssueAdds(s.(store := t), leases.value, n);
      ClaimAssigns(c);
    }
  }

  lemma AttemptIssuesNothing(s: RelaySystem.Sys, step: RelaySystem.Step)
    requires RelaySystem.OfAttempt(step) && step.n in s.attempts
    ensures RelaySystem.Attempted(s, step, step.n).issued == s.issued
  {
  }

  lemma OthersIssueNothing(policy: Queue.Policy, s: RelaySystem.Sys, step: RelaySystem.Step)
    requires !step.Claim?
    ensures RelaySystem.Do(policy, s, step).issued == s.issued
  {
    RelaySystem.DoCases(policy, s, step);
    if RelaySystem.OfAttempt(step) && step.n in s.attempts {
      AttemptIssuesNothing(s, step);
    }
  }

  lemma StepTells(policy: Queue.Policy, s: RelaySystem.Sys, step: RelaySystem.Step)
    requires RelaySystem.Good(s) && AllTell(s)
    ensures AllTell(RelaySystem.Do(policy, s, step))
  {
    var t := RelaySystem.Do(policy, s, step);
    if step.Claim? {
      RelaySystem.DoCases(policy, s, step);
      forall n | n in t.issued ensures Tells(t.issued[n], t.store.db) {
        ClaimedTells(policy, s, step.limit, step.weather, step.draws, n);
      }
    } else {
      OthersIssueNothing(policy, s, step);
      Permanence.StepOnward(policy, s, step);
      forall n | n in t.issued ensures Tells(t.issued[n], t.store.db) {
        TellsOnward(s.issued[n], s.store.db, t.store.db);
      }
    }
  }

  /**
   * In every run, every lease ever issued names the recipient of its row, the sender, kind and contents of
   * its message and its body mode, so an attempt sends that mail to that recipient.
   */
  lemma {:induction false} LeasesTellTheMail(policy: Queue.Policy, steps: seq<RelaySystem.Step>)
    ensures AllTell(RelaySystem.Run(policy, steps))
  {
    if steps != [] {
      var before := steps[..|steps| - 1];
      LeasesTellTheMail(policy, before);
      Guarantees.RunsAreGood(policy, before);
      StepTells(policy, RelaySystem.Run(policy, before), steps[|steps| - 1]);
    }
  }
}
