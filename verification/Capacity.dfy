/** Admission limits: live leases never exceed the policy, in total or for one domain. */
module Capacity {
  import opened Wrappers
  import opened Tables
  import opened Ordering
  import opened Moves
  import opened Transactions
  import opened RelaySystem
  import Clock
  import Fairness
  import Guarantees
  import Permanence
  import Queue
  import RelayRuns

  ghost predicate Within(policy: Queue.Policy, active: map<Id, Queue.Guard>, live: set<nat>) {
    && |active| <= policy.concurrency
    && forall domain :: Queue.Load(active, live, domain) <= policy.perDomain
  }

  /** Owners only leave. */
  predicate Fewer(active: map<Id, Queue.Guard>, next: map<Id, Queue.Guard>) {
    forall id :: id in next ==> id in active && next[id] == active[id]
  }

  lemma FewerWithin(policy: Queue.Policy, active: map<Id, Queue.Guard>, live: set<nat>,
                    next: map<Id, Queue.Guard>, live': set<nat>)
    requires Within(policy, active, live) && Fewer(active, next) && live' <= live
    ensures Within(policy, next, live')
  {
    Fairness.Subset(next.Keys, active.Keys);
    forall domain ensures Queue.Load(next, live', domain) <= policy.perDomain {
      Fairness.Subset(Queue.Holders(next, live', domain), Queue.Holders(active, live, domain));
      assert Queue.Load(active, live, domain) <= policy.perDomain;
    }
  }

  // ---------------------------------------------------------------- registering the leases of a claim

  lemma {:induction false} LeasesForFront(leases: seq<Queue.Lease>, domain: string)
    requires leases != []
    ensures Queue.LeasesFor(leases, domain)
            == (if leases[0].domain == domain then 1 else 0) + Queue.LeasesFor(leases[1..], domain)
    decreases |leases|
  {
    if |leases| > 1 {
      var n := |leases| - 1;
      LeasesForFront(leases[..n], domain);
      assert leases[1..][..n - 1] == leases[..n][1..];
    }
  }

  function Serials(leases: seq<Queue.Lease>): set<nat> { set l | l in leases :: l.serial }

  lemma RegisterOne(active: map<Id, Queue.Guard>, live: set<nat>, l: Queue.Lease, domain: string)
    requires forall id :: id in active ==> active[id].serial != l.serial
    ensures Queue.Load(active[l.id := Queue.Guard(l.serial, l.domain)], live + {l.serial}, domain)
            <= Queue.Load(active, live, domain) + if l.domain == domain then 1 else 0
  {
    var next := active[l.id := Queue.Guard(l.serial, l.domain)];
    var old_, new_ := Queue.Holders(active, live, domain), Queue.Holders(next, live + {l.serial}, domain);
    if l.domain == domain {
      assert |old_ + {l.id}| <= |old_| + 1 by {
        assert l.id in old_ ==> old_ + {l.id} == old_;
      }
      Fairness.Subset(new_, old_ + {l.id});
    } else {
      Fairness.Subset(new_, old_);
    }
  }

  lemma SerialsFront(leases: seq<Queue.Lease>, live: set<nat>)
    requires leases != []
    ensures live + Serials(leases) == live + {leases[0].serial} + Serials(leases[1..])
  {
    assert leases == [leases[0]] + leases[1..];
  }

  lemma {:induction false} RegisteredSize(active: map<Id, Queue.Guard>, leases: seq<Queue.Lease>)
    ensures |Queue.Registered(active, leases)| <= |active| + |leases|
    decreases |leases|
  {
    if leases != [] {
      var l := leases[0];
      var next := active[l.id := Queue.Guard(l.serial, l.domain)];
      assert next.Keys == active.Keys + {l.id};
      RegisteredSize(next, leases[1..]);
    }
  }

  lemma {:induction false} RegisteredLoad(active: map<Id, Queue.Guard>, live: set<nat>, leases: seq<Queue.Lease>,
                                          serial: nat, domain: string)
    requires forall id :: id in active ==> active[id].serial < serial
    requires forall i :: 0 <= i < |leases| ==> leases[i].serial == serial + i
    ensures Queue.Load(Queue.Registered(active, leases), live + Serials(leases), domain)
            <= Queue.Load(active, live, domain) + Queue.LeasesFor(leases, domain)
    decreases |leases|
  {
    if leases == [] {
      assert live + Serials(leases) == live;
    } else {
      var l, rest := leases[0], leases[1..];
      var next := active[l.id := Queue.Guard(l.serial, l.domain)];
      RegisterOne(active, live, l, domain);
      RegisteredLoad(next, live + {l.serial}, rest, serial + 1, domain);
      SerialsFront(leases, live);
      LeasesForFront(leases, domain);
    }
  }

  lemma NamedSerials(base: Db, c: Queue.Claimed, ctx: Queue.Context)
    requires c.tx.deliveries.Keys == base.deliveries.Keys && LeasesScanned(base, c, ctx)
    ensures |c.leases| <= ctx.available && forall i :: 0 <= i < |c.leases| ==> c.leases[i].serial == ctx.serial + i
  {
    forall i | 0 <= i < |c.leases| ensures c.leases[i].serial == ctx.serial + i {
      assert Names(c.leases[i], base, c.tx, ctx, i);
    }
  }

  lemma SharesWithin(leases: seq<Queue.Lease>, ctx: Queue.Context, domain: string)
    requires SharesKept(leases, ctx) && Within(ctx.policy, ctx.active, ctx.live)
    requires forall id :: id in ctx.active ==> ctx.active[id].serial < ctx.serial
    requires forall i :: 0 <= i < |leases| ==> leases[i].serial == ctx.serial + i
    ensures Queue.Load(Queue.Registered(ctx.active, leases), ctx.live + Serials(leases), domain) <= ctx.policy.perDomain
    ensures |Queue.Registered(ctx.active, leases)| <= |ctx.active| + |leases|
  {
    RegisteredLoad(ctx.active, ctx.live, leases, ctx.serial, domain);
    RegisteredSize(ctx.active, leases);
    assert Queue.Load(ctx.active, ctx.live, domain) <= ctx.policy.perDomain;
  }

  /** The leases of a scan fit into what was free. */
  lemma RegisteredWithin(base: Db, c: Queue.Claimed, ctx: Queue.Context)
    requires Scanned(base, c, ctx) && Within(ctx.policy, ctx.active, ctx.live)
    requires forall id :: id in ctx.active ==> ctx.active[id].serial < ctx.serial
    requires ctx.available <= ctx.policy.concurrency - |ctx.active|
    ensures Within(ctx.policy, Queue.Registered(ctx.active, c.leases), ctx.live + Serials(c.leases))
  {
    NamedSerials(base, c, ctx);
    SharesWithin(c.leases, ctx, "");
    forall domain
      ensures Queue.Load(Queue.Registered(ctx.active, c.leases), ctx.live + Serials(c.leases), domain)
              <= ctx.policy.perDomain
    {
      SharesWithin(c.leases, ctx, domain);
    }
  }

  function Answer(answer: Result<seq<Queue.Lease>, StoreError>): set<nat> {
    if answer.Ok? then Serials(answer.value) else {}
  }

  lemma ClaimCommitWithin(t: Queue.Store, rows: seq<Key>, c: Queue.Claimed, ctx: Queue.Context, fate: Fate)
    requires c.seen <= |rows| && ctx.active == t.rt.active && Within(ctx.policy, t.rt.active, ctx.live)
    requires Within(ctx.policy, Queue.Registered(ctx.active, c.leases), ctx.live + Serials(c.leases))
    ensures var (t', answer) := Queue.ClaimCommit(t, rows, c, fate);
            Within(ctx.policy, t'.rt.active, ctx.live + Answer(answer))
  {
    assert ctx.live + {} == ctx.live;
  }

  lemma ScanWithin(t: Queue.Store, ctx: Queue.Context)
    requires ctx.policy.Valid() && RowsOk(t.db) && Within(ctx.policy, ctx.active, ctx.live)
    requires forall id :: id in ctx.active ==> ctx.active[id].serial < ctx.serial
    requires ctx.available <= ctx.policy.concurrency - |ctx.active|
    ensures var scan := Queue.Scan(Queue.Claimed(t.db, [], 0), Queue.ReadyBatch(t, ctx.now), ctx);
            scan.Ok? ==>
              Within(ctx.policy, Queue.Registered(ctx.active, scan.value.leases), ctx.live + Serials(scan.value.leases))
  {
    var scan := Queue.Scan(Queue.Claimed(t.db, [], 0), Queue.ReadyBatch(t, ctx.now), ctx);
    if scan.Ok? {
      ClaimScans(t, ctx);
      RegisteredWithin(t.db, scan.value, ctx);
    }
  }

  lemma ClaimDueWithin(t: Queue.Store, ctx: Queue.Context, fate: Fate)
    requires ctx.policy.Valid() && RowsOk(t.db) && ctx.active == t.rt.active
             && Within(ctx.policy, t.rt.active, ctx.live)
    requires forall id :: id in ctx.active ==> ctx.active[id].serial < ctx.serial
    requires ctx.available > 0 ==> ctx.available <= ctx.policy.concurrency - |ctx.active|
    ensures var (t', answer) := Queue.ClaimDue(t, ctx, fate);
            Within(ctx.policy, t'.rt.active, ctx.live + Answer(answer))
  {
    Queue.ClaimDueIs(t, ctx, fate);
    var rows := Queue.ReadyBatch(t, ctx.now);
    var scan := Queue.Scan(Queue.Claimed(t.db, [], 0), rows, ctx);
    if ctx.available > 0 && scan.Ok? {
      ScanWithin(t, ctx);
      ClaimCommitWithin(t, rows, scan.value, ctx, fate);
    } else {
      assert Serials([]) == {} && ctx.live + {} == ctx.live;
    }
  }

  lemma ThenClaimWithin(expired: (Queue.Store, Result<nat, StoreError>), o: Queue.Order, fate: Fate)
    requires o.policy.Valid() && RowsOk(expired.0.db) && Within(o.policy, expired.0.rt.active, o.live)
    requires forall id :: id in expired.0.rt.active ==> expired.0.rt.active[id].serial < o.serial
    ensures var (t, answer) := Queue.ThenClaim(expired, o, fate); Within(o.policy, t.rt.active, o.live + Answer(answer))
  {
    var t := expired.0;
    assert o.live + {} == o.live;
    if expired.1.Ok? {
      ClaimDueWithin(t, Queue.ClaimContext(t, o.policy, o.limit, o.live, o.now, o.draws, o.serial), fate);
    }
  }

  lemma ThenExpireWithin(recovered: (Queue.Store, Result<nat, StoreError>), o: Queue.Order, w: Queue.Weather)
    requires o.policy.Valid() && DbOk(recovered.0.db) && Within(o.policy, recovered.0.rt.active, o.live)
    requires forall id :: id in recovered.0.rt.active ==> recovered.0.rt.active[id].serial < o.serial
    ensures var (t, answer) := Queue.ThenExpire(recovered, o, w); Within(o.policy, t.rt.active, o.live + Answer(answer))
  {
    assert o.live + {} == o.live;
    if recovered.1.Ok? {
      ExpireSound(recovered.0, Queue.BATCH, w.expiry, w.expiryFate, {});
      ThenClaimWithin(Queue.Expire(recovered.0, Queue.BATCH, w.expiry, w.expiryFate), o, w.fate);
    }
  }

  lemma ClaimWithin(policy: Queue.Policy, s: Queue.Store, limit: nat, live: set<nat>, w: Queue.Weather,
                    draws: seq<Queue.Draw>, serial: nat)
    requires DbOk(s.db) && Within(policy, s.rt.active, live)
    requires forall id :: id in s.rt.active ==> s.rt.active[id].serial < serial
    ensures var (t, answer) := Queue.Claim(s, policy, limit, live, w, draws, serial);
            Within(policy, t.rt.active, live + Answer(answer))
  {
    assert live + {} == live;
    var ticked := Queue.Ticked(s, w.first);
    if policy.Valid() && 1 <= limit <= Queue.BATCH && ticked.1.Ok? {
      var recovered := RelayRuns.RecoverFirst(ticked, policy, limit, live, w, draws, serial);
      RecoverSound(ticked.0, Queue.BATCH, live, w.recovery, w.recoveryFate, {});
      FewerWithin(policy, s.rt.active, live, recovered.0.rt.active, live);
      ThenExpireWithin(recovered, Queue.Order(policy, limit, live, ticked.1.value, draws, serial), w);
    }
  }

  // ---------------------------------------------------------------- every step

  lemma {:induction false} IssueLives(s: Sys, leases: seq<Queue.Lease>)
    ensures Live(Issue(s, leases)) == Live(s) + Serials(leases)
    decreases |leases|
  {
    if leases == [] {
      assert Serials(leases) == {};
    } else {
      IssueLives(IssueOne(s, leases[0]), leases[1..]);
      assert leases == [leases[0]] + leases[1..];
      assert Live(IssueOne(s, leases[0])) == Live(s) + {leases[0].serial};
    }
  }

  lemma AttemptFewer(s: Sys, step: Step)
    requires OfAttempt(step) && step.n in s.attempts
    ensures var s' := Attempted(s, step, step.n); s'.store.rt.active == s.store.rt.active && Live(s') <= Live(s)
  {
    Permanence.AttemptedStore(s, step);
    AttemptLives(s, step);
    if step.Finish? && s.attempts[step.n].stage.Done? {
      var a := s.attempts[step.n];
      FinishKeepsOwners(s.store, a.lease, a.stage.result, step.r, step.guarded, step.fate);
    }
  }

  lemma FinishKeepsOwners(s: Queue.Store, lease: Queue.Lease, outcome: Queue.QueueResult,
                          r: Clock.Reading, guarded: Clock.Reading, fate: Fate)
    ensures Queue.Finish(s, lease, outcome, r, guarded, fate).0.rt.active == s.rt.active
  {
  }

  lemma AttemptLives(s: Sys, step: Step)
    requires OfAttempt(step) && step.n in s.attempts
    ensures Live(Attempted(s, step, step.n)) <= Live(s)
  {
  }

  ghost predicate Admitted(policy: Queue.Policy, s: Sys) { Within(policy, s.store.rt.active, Live(s)) }

  lemma ClaimAdmits(policy: Queue.Policy, s: Sys, limit: nat, w: Queue.Weather, draws: seq<Queue.Draw>)
    requires DbOk(s.store.db) && Wired(s) && Admitted(policy, s)
    ensures Admitted(policy, Claimed(policy, s, limit, w, draws))
  {
    var (t, answer) := Queue.Claim(s.store, policy, limit, Live(s), w, draws, s.serial);
    ClaimWithin(policy, s.store, limit, Live(s), w, draws, s.serial);
    Permanence.ClaimedIs(policy, s, limit, w, draws);
    if answer.Ok? {
      IssueLives(s.(store := t), answer.value);
    } else {
      assert Live(s) + {} == Live(s);
    }
  }

  lemma FewerAdmits(policy: Queue.Policy, s: Sys, s': Sys)
    requires Admitted(policy, s) && Fewer(s.store.rt.active, s'.store.rt.active) && Live(s') <= Live(s)
    ensures Admitted(policy, s')
  {
    FewerWithin(policy, s.store.rt.active, Live(s), s'.store.rt.active, Live(s'));
  }

  lemma StoreAdmits(policy: Queue.Policy, s: Sys, step: Step)
    requires Good(s) && Admitted(policy, s)
    requires !OfAttempt(step) && !step.Claim? && !step.Crash? && !step.DropReader?
    ensures Admitted(policy, s.(store := Stored(s, step)))
  {
    var t := Stored(s, step);
    assert Fewer(s.store.rt.active, t.rt.active) by {
      Guarantees.DatabaseStepKeeps(s, step);
    }
    FewerAdmits(policy, s, s.(store := t));
  }

  lemma AttemptAdmits(policy: Queue.Policy, s: Sys, step: Step)
    requires Admitted(policy, s) && OfAttempt(step) && step.n in s.attempts
    ensures Admitted(policy, Attempted(s, step, step.n))
  {
    AttemptFewer(s, step);
    FewerAdmits(policy, s, Attempted(s, step, step.n));
  }

  lemma StepAdmits(policy: Queue.Policy, s: Sys, step: Step)
    requires Good(s) && Admitted(policy, s)
    ensures Admitted(policy, Do(policy, s, step))
  {
    DoCases(policy, s, step);
    if OfAttempt(step) {
      if step.n in s.attempts {
        AttemptAdmits(policy, s, step);
      }
    } else if step.Claim? {
      ClaimAdmits(policy, s, step.limit, step.weather, step.draws);
    } else if step.Crash? || step.DropReader? {
      FewerAdmits(policy, s, Do(policy, s, step));
    } else {
      StoreAdmits(policy, s, step);
    }
  }

  lemma {:induction false} RunsAdmit(policy: Queue.Policy, steps: seq<Step>)
    ensures Admitted(policy, Run(policy, steps))
  {
    if steps != [] {
      RunsAdmit(policy, steps[..|steps| - 1]);
      Guarantees.RunsAreGood(policy, steps[..|steps| - 1]);
      StepAdmits(policy, Run(policy, steps[..|steps| - 1]), steps[|steps| - 1]);
    }
  }

  // ---------------------------------------------------------------- in terms of live guards

  /** Live guards for one domain. */
  function LiveFor(s: Sys, domain: string): set<nat> {
    set n | n in Live(s) && n in s.issued && s.issued[n].domain == domain
  }

  lemma {:induction false} Injects(a: set<nat>, f: map<nat, Id>, b: set<Id>)
    requires a <= f.Keys && (forall n :: n in a ==> f[n] in b)
    requires forall m, n :: m in a && n in a && m != n ==> f[m] != f[n]
    ensures |a| <= |b|
    decreases |a|
  {
    if a != {} {
      var n :| n in a;
      Injects(a - {n}, f, b - {f[n]});
    }
  }

  /** Each live guard sits in the owner map under its delivery. */
  lemma LiveFit(policy: Queue.Policy, s: Sys, domain: string)
    requires Wired(s) && Admitted(policy, s)
    ensures |Live(s)| <= policy.concurrency && |LiveFor(s, domain)| <= policy.perDomain
  {
    var active, live := s.store.rt.active, Live(s);
    var f := map n | n in s.issued :: s.issued[n].id;
    forall n | n in live ensures n in f && f[n] in active && active[f[n]] == Queue.Guard(n, s.issued[n].domain) {
    }
    LiveInject(active, live, f, LiveFor(s, domain), domain);
    assert Queue.Load(active, live, domain) <= policy.perDomain;
  }

  lemma LiveInject(active: map<Id, Queue.Guard>, live: set<nat>, f: map<nat, Id>, some: set<nat>, domain: string)
    requires forall n :: n in live ==> n in f && f[n] in active && active[f[n]].serial == n
    requires some <= live && forall n :: n in some ==> active[f[n]].domain == domain
    ensures |live| <= |active| && |some| <= Queue.Load(active, live, domain)
  {
    Injects(live, f, active.Keys);
    Injects(some, f, Queue.Holders(active, live, domain));
  }

  /** At most `concurrency` leases or body readers are alive, and at most `per_domain` for one domain. */
  lemma GuardsWithinPolicy(policy: Queue.Policy, steps: seq<Step>, domain: string)
    ensures var s := Run(policy, steps);
            |Live(s)| <= policy.concurrency && |LiveFor(s, domain)| <= policy.perDomain
  {
    RunsAdmit(policy, steps);
    Guarantees.RunsAreGood(policy, steps);
    LiveFit(policy, Run(policy, steps), domain);
  }

  // ---------------------------------------------------------------- a claim never meets damage

  predicate Damage(e: StoreError) { e == Integrity || e == Database }

  lemma ScanIntact(t: Queue.Store, ctx: Queue.Context)
    requires ctx.policy.Valid() && DbOk(t.db)
    ensures var scan := Queue.Scan(Queue.Claimed(t.db, [], 0), Queue.ReadyBatch(t, ctx.now), ctx);
            scan.Err? ==> !Damage(scan.error)
  {
    if Queue.Scan(Queue.Claimed(t.db, [], 0), Queue.ReadyBatch(t, ctx.now), ctx).Err? {
      Fairness.ClaimReads(t, ctx);
    }
  }

  /** A claim fails with its scan, or at its commit. */
  lemma ClaimDueAnswers(t: Queue.Store, ctx: Queue.Context, fate: Fate)
    requires ctx.policy.Valid()
    ensures var scan := Queue.Scan(Queue.Claimed(t.db, [], 0), Queue.ReadyBatch(t, ctx.now), ctx);
            var answer := Queue.ClaimDue(t, ctx, fate).1;
            answer.Err? ==> answer.error == OutcomeUnknown || (scan.Err? && answer.error == scan.error)
  {
    Queue.ClaimDueIs(t, ctx, fate);
  }

  lemma ClaimDueIntact(t: Queue.Store, ctx: Queue.Context, fate: Fate)
    requires ctx.policy.Valid() && DbOk(t.db)
    ensures var answer := Queue.ClaimDue(t, ctx, fate).1; answer.Err? ==> !Damage(answer.error)
  {
    ClaimDueAnswers(t, ctx, fate);
    ScanIntact(t, ctx);
  }

  lemma ThenClaimIntact(expired: (Queue.Store, Result<nat, StoreError>), o: Queue.Order, fate: Fate)
    requires o.policy.Valid() && DbOk(expired.0.db) && (expired.1.Err? ==> !Damage(expired.1.error))
    ensures var answer := Queue.ThenClaim(expired, o, fate).1; answer.Err? ==> !Damage(answer.error)
  {
    var t := expired.0;
    ClaimDueIntact(t, Queue.ClaimContext(t, o.policy, o.limit, o.live, o.now, o.draws, o.serial), fate);
  }

  lemma ExpiryIntact(s: Queue.Store, r: Clock.Reading, fate: Fate)
    ensures var answer := Queue.Expire(s, Queue.BATCH, r, fate).1; answer.Err? ==> !Damage(answer.error)
  {
  }

  lemma ThenExpireIntact(recovered: (Queue.Store, Result<nat, StoreError>), o: Queue.Order, w: Queue.Weather)
    requires o.policy.Valid() && DbOk(recovered.0.db) && (recovered.1.Err? ==> !Damage(recovered.1.error))
    ensures var answer := Queue.ThenExpire(recovered, o, w).1; answer.Err? ==> !Damage(answer.error)
  {
    if recovered.1.Ok? {
      ExpireSound(recovered.0, Queue.BATCH, w.expiry, w.expiryFate, {});
      ExpiryIntact(recovered.0, w.expiry, w.expiryFate);
      ThenClaimIntact(Queue.Expire(recovered.0, Queue.BATCH, w.expiry, w.expiryFate), o, w.fate);
    }
  }

  /** In no run does `queue_claim` report a damaged row or a missing reference. */
  lemma ClaimsMeetNoDamage(policy: Queue.Policy, steps: seq<Step>, limit: nat, w: Queue.Weather, draws: seq<Queue.Draw>)
    ensures var s := Run(policy, steps);
            var answer := Queue.Claim(s.store, policy, limit, Live(s), w, draws, s.serial).1;
            answer.Err? ==> !Damage(answer.error)
  {
    var s := Run(policy, steps);
    Guarantees.RunsAreGood(policy, steps);
    ClaimIntact(s.store, policy, limit, Live(s), w, draws, s.serial);
  }

  lemma ClaimIntact(s: Queue.Store, policy: Queue.Policy, limit: nat, live: set<nat>, w: Queue.Weather,
                    draws: seq<Queue.Draw>, serial: nat)
    requires DbOk(s.db)
    ensures var answer := Queue.Claim(s, policy, limit, live, w, draws, serial).1; answer.Err? ==> !Damage(answer.error)
  {
    var ticked := Queue.Ticked(s, w.first);
    if policy.Valid() && 1 <= limit <= Queue.BATCH && ticked.1.Ok? {
      var recovered := RelayRuns.RecoverFirst(ticked, policy, limit, live, w, draws, serial);
      RecoverSound(ticked.0, Queue.BATCH, live, w.recovery, w.recoveryFate, {});
      RecoveryIntact(ticked.0, live, w.recovery, w.recoveryFate);
      ThenExpireIntact(recovered, Queue.Order(policy, limit, live, ticked.1.value, draws, serial), w);
    }
  }

  lemma RecoveryIntact(s: Queue.Store, live: set<nat>, r: Clock.Reading, fate: Fate)
    ensures var answer := Queue.Recover(s, Queue.BATCH, live, r, fate).1; answer.Err? ==> !Damage(answer.error)
  {
  }
}
