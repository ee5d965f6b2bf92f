/** The guarded clock over whole runs: every time the queue acts on comes from a trusted reading. */
module Timekeeping {
  import opened Wrappers
  import opened Tables
  import opened Ordering
  import opened RelaySystem
  import Acceptance
  import Clock
  import Notification
  import Permanence
  import Queue
  import RelayRuns

  /** The guard after more readings. */
  function Reread(g: Clock.Guard, rs: seq<Clock.Reading>): Clock.Guard {
    if rs == [] then g else Clock.Now(Reread(g, rs[..|rs| - 1]), rs[|rs| - 1]).0
  }

  lemma {:induction false} RereadAfter(past: seq<Clock.Reading>, rs: seq<Clock.Reading>)
    ensures Clock.After(past + rs) == Reread(Clock.After(past), rs)
  {
    if rs == [] {
      assert past + rs == past;
    } else {
      RereadAfter(past, rs[..|rs| - 1]);
      assert (past + rs)[..|past + rs| - 1] == past + rs[..|rs| - 1];
    }
  }

  lemma RereadOne(g: Clock.Guard, r: Clock.Reading)
    ensures Reread(g, [r]) == Clock.Now(g, r).0
  {
    assert [r][..0] == [];
  }

  lemma RereadTwo(g: Clock.Guard, r: Clock.Reading, again: Clock.Reading)
    ensures Reread(g, [r, again]) == Clock.Now(Clock.Now(g, r).0, again).0
  {
    assert [r, again][..1] == [r];
    RereadOne(g, r);
  }

  // ---------------------------------------------------------------- the readings a step takes

  /** Whether looking for the next failure ends in putting it off, which reads the clock again. */
  predicate PutsOff(s: Queue.Store, p: Notification.Policy, report: Id, size: Option<nat>, staged: bool,
                    r: Clock.Reading) {
    var (s1, now) := Queue.Ticked(s, r);
    && Notification.ValidPolicy(p) && now.Ok?
    && var due := First(Notification.DueKeys(s1.db, now.value), 1);
       && due != [] && due[0].id in s1.db.deliveries && s1.db.deliveries[due[0].id].message in s1.db.messages
       && Notification.Reportable(s1.db.messages[s1.db.deliveries[due[0].id].message])
       && Notification.PlanReport(s1.db, due[0].id, p, report, size, staged).Err?
  }

  /** Whether a claim gets as far as its expiry batch. */
  predicate Expiring(s: Queue.Store, live: set<nat>, w: Queue.Weather) {
    var (s1, now) := Queue.Ticked(s, w.first);
    now.Ok? && Queue.Recover(s1, Queue.BATCH, live, w.recovery, w.recoveryFate).1.Ok?
  }

  /** The guarded clock readings taken by one step, in order. */
  function Taken(policy: Queue.Policy, s: Sys, step: Step): seq<Clock.Reading> {
    match step
    case Expire(limit, r, _) => if 1 <= limit <= Queue.BATCH then [r] else []
    case Retry(_, _, _, r, _) => [r]
    case NoticePostpone(_, r) => [r]
    case NoticeCommit(_, _, _, r, _) => [r]
    case NoticeNext(p, report, size, staged, r, again) =>
      if !Notification.ValidPolicy(p) then []
      else if PutsOff(s.store, p, report, size, staged, r) then [r, again] else [r]
    case Claim(limit, w, _) =>
      if !policy.Valid() || !(1 <= limit <= Queue.BATCH) then []
      else if Expiring(s.store, Live(s), w) then [w.first, w.expiry] else [w.first]
    case Renew(n, r, _) => if n in s.attempts && s.attempts[n].stage in {Envelope, Marked, Dotted} then [r] else []
    case Finish(n, r, guarded, _) =>
      if n in s.attempts && s.attempts[n].stage.Done? && r.wall.Some? then [guarded] else []
    case _ => []
  }

  /** All guarded readings of a run since its store was last opened. */
  function Readings(policy: Queue.Policy, steps: seq<Step>): seq<Clock.Reading> {
    if steps == [] || steps[|steps| - 1].Crash? then []
    else
      var before := steps[..|steps| - 1];
      Readings(policy, before) + Taken(policy, Run(policy, before), steps[|steps| - 1])
  }

  // ---------------------------------------------------------------- every operation reads exactly those

  lemma ExpireReads(s: Queue.Store, limit: nat, r: Clock.Reading, fate: Fate)
    ensures Queue.Expire(s, limit, r, fate).0.rt.clock
            == if 1 <= limit <= Queue.BATCH then Clock.Now(s.rt.clock, r).0 else s.rt.clock
  {
  }

  lemma RecoverReads(s: Queue.Store, limit: nat, live: set<nat>, r: Clock.Reading, fate: Fate)
    ensures Queue.Recover(s, limit, live, r, fate).0.rt.clock == s.rt.clock
  {
  }

  lemma RetryReads(s: Queue.Store, id: Id, dup: bool, extend: bool, r: Clock.Reading, fate: Fate)
    ensures Queue.Retry(s, id, dup, extend, r, fate).0.rt.clock == Clock.Now(s.rt.clock, r).0
  {
  }

  lemma RenewReads(s: Queue.Store, lease: Queue.Lease, r: Clock.Reading, fate: Fate)
    ensures Queue.Renew(s, lease, 300, r, fate).0.rt.clock == Clock.Now(s.rt.clock, r).0
  {
  }

  lemma FinishReads(s: Queue.Store, lease: Queue.Lease, outcome: Queue.QueueResult, r: Clock.Reading,
                    guarded: Clock.Reading, fate: Fate)
    ensures Queue.Finish(s, lease, outcome, r, guarded, fate).0.rt.clock
            == if r.wall.Some? then Clock.Now(s.rt.clock, guarded).0 else s.rt.clock
  {
  }

  lemma PostponeReads(s: Queue.Store, id: Id, r: Clock.Reading)
    ensures Notification.Postpone(s, id, r).0.rt.clock == Clock.Now(s.rt.clock, r).0
  {
  }

  lemma CommitReads(s: Queue.Store, plan: Notification.Plan, p: Acceptance.Prepared, delivery: Id,
                    r: Clock.Reading, fate: Fate)
    ensures Notification.CommitReport(s, plan, p, delivery, r, fate).0.rt.clock == Clock.Now(s.rt.clock, r).0
  {
  }

  lemma OfferReads(s: Queue.Store, id: Id, plan: Result<Notification.Plan, StoreError>, again: Clock.Reading)
    requires id in s.db.deliveries && s.db.deliveries[id].message in s.db.messages
    ensures Notification.Offer(s, id, plan, again).0.rt.clock
            == if Notification.Reportable(s.db.messages[s.db.deliveries[id].message]) && plan.Err?
               then Clock.Now(s.rt.clock, again).0 else s.rt.clock
  {
    PostponeReads(s, id, again);
  }

  lemma NextReads(s: Queue.Store, p: Notification.Policy, report: Id, size: Option<nat>, staged: bool,
                  r: Clock.Reading, again: Clock.Reading)
    requires Notification.ValidPolicy(p)
    ensures Notification.Next(s, p, report, size, staged, r, again).0.rt.clock
            == if PutsOff(s, p, report, size, staged, r) then Clock.Now(Clock.Now(s.rt.clock, r).0, again).0
               else Clock.Now(s.rt.clock, r).0
  {
    var (s1, now) := Queue.Ticked(s, r);
    if now.Ok? {
      var keys := Notification.DueKeys(s1.db, now.value);
      var due := First(keys, 1);
      if due != [] {
        assert due[0] in keys;
        OfferReads(s1, due[0].id, Notification.PlanReport(s1.db, due[0].id, p, report, size, staged), again);
      }
    }
  }

  lemma ClaimDueReads(s: Queue.Store, ctx: Queue.Context, fate: Fate)
    requires ctx.policy.Valid()
    ensures Queue.ClaimDue(s, ctx, fate).0.rt.clock == s.rt.clock
  {
    Queue.ClaimDueIs(s, ctx, fate);
  }

  lemma ThenExpireReads(recovered: (Queue.Store, Result<nat, StoreError>), o: Queue.Order, w: Queue.Weather)
    requires o.policy.Valid()
    ensures Queue.ThenExpire(recovered, o, w).0.rt.clock
            == if recovered.1.Ok? then Clock.Now(recovered.0.rt.clock, w.expiry).0 else recovered.0.rt.clock
  {
    ExpireReads(recovered.0, Queue.BATCH, w.expiry, w.expiryFate);
    var t := Queue.Expire(recovered.0, Queue.BATCH, w.expiry, w.expiryFate).0;
    ClaimDueReads(t, Queue.ClaimContext(t, o.policy, o.limit, o.live, o.now, o.draws, o.serial), w.fate);
  }

  lemma ClaimReads(s: Queue.Store, policy: Queue.Policy, limit: nat, live: set<nat>, w: Queue.Weather,
                   draws: seq<Queue.Draw>, serial: nat)
    requires policy.Valid() && 1 <= limit <= Queue.BATCH
    ensures Queue.Claim(s, policy, limit, live, w, draws, serial).0.rt.clock
            == if Expiring(s, live, w) then Clock.Now(Clock.Now(s.rt.clock, w.first).0, w.expiry).0
               else Clock.Now(s.rt.clock, w.first).0
  {
    var ticked := Queue.Ticked(s, w.first);
    if ticked.1.Ok? {
      RecoverReads(ticked.0, Queue.BATCH, live, w.recovery, w.recoveryFate);
      var recovered := Queue.Recover(ticked.0, Queue.BATCH, live, w.recovery, w.recoveryFate);
      ThenExpireReads(recovered, Queue.Order(policy, limit, live, ticked.1.value, draws, serial), w);
    }
  }

  // ---------------------------------------------------------------- every step and every run

  lemma QueueReads(policy: Queue.Policy, s: Sys, step: Step)
    requires !RelayRuns.MailStep(step)
    ensures Stored(s, step).rt.clock
            == if OfAttempt(step) || step.Claim? then s.store.rt.clock
               else Reread(s.store.rt.clock, Taken(policy, s, step))
  {
    var t := s.store;
    RelayRuns.StoredQueue(s, step);
    if step.Expire? {
      ExpireReads(t, step.limit, step.r, step.fate);
      RereadOne(t.rt.clock, step.r);
    } else if step.Recover? {
      RecoverReads(t, step.limit, Live(s), step.r, step.fate);
    } else if step.Retry? {
      RetryReads(t, step.id, step.dup, step.extend, step.r, step.fate);
      RereadOne(t.rt.clock, step.r);
    }
  }

  lemma MailReads(policy: Queue.Policy, s: Sys, step: Step)
    requires RelayRuns.MailStep(step)
    ensures Stored(s, step).rt.clock == Reread(s.store.rt.clock, Taken(policy, s, step))
  {
    var t := s.store;
    RelayRuns.StoredMail(s, step);
    if step.NoticePostpone? {
      PostponeReads(t, step.id, step.r);
      RereadOne(t.rt.clock, step.r);
    } else if step.NoticeCommit? {
      CommitReads(t, step.notice, step.p, step.delivery, step.r, step.fate);
      RereadOne(t.rt.clock, step.r);
    } else if step.NoticeNext? {
      if Notification.ValidPolicy(step.policy) {
        NextReads(t, step.policy, step.report, step.size, step.staged, step.r, step.again);
        RereadOne(t.rt.clock, step.r);
        RereadTwo(t.rt.clock, step.r, step.again);
      }
    }
  }

  /** The steps of an attempt that read the clock. */
  lemma AttemptReads(policy: Queue.Policy, s: Sys, step: Step)
    requires OfAttempt(step) && step.n in s.attempts
    ensures Attempted(s, step, step.n).store.rt.clock == Reread(s.store.rt.clock, Taken(policy, s, step))
  {
    var a := s.attempts[step.n];
    if step.Renew? {
      RenewReads(s.store, a.lease, step.r, step.fate);
      RereadOne(s.store.rt.clock, step.r);
    } else if step.Finish? {
      if a.stage.Done? {
        FinishReads(s.store, a.lease, a.stage.result, step.r, step.guarded, step.fate);
        RereadOne(s.store.rt.clock, step.guarded);
      }
    } else {
      Permanence.AttemptedStore(s, step);
    }
  }

  lemma ClaimedReads(policy: Queue.Policy, s: Sys, step: Step)
    requires step.Claim?
    ensures Claimed(policy, s, step.limit, step.weather, step.draws).store.rt.clock
            == Reread(s.store.rt.clock, Taken(policy, s, step))
  {
    var w := step.weather;
    Permanence.ClaimedIs(policy, s, step.limit, w, step.draws);
    if policy.Valid() && 1 <= step.limit <= Queue.BATCH {
      ClaimReads(s.store, policy, step.limit, Live(s), w, step.draws, s.serial);
      RereadOne(s.store.rt.clock, w.first);
      RereadTwo(s.store.rt.clock, w.first, w.expiry);
    }
  }

  lemma NothingTaken(policy: Queue.Policy, s: Sys, step: Step)
    requires step.DropReader? || (OfAttempt(step) && step.n !in s.attempts)
    ensures Taken(policy, s, step) == []
  {
  }

  lemma StepReads(policy: Queue.Policy, s: Sys, step: Step)
    requires !step.Crash?
    ensures Do(policy, s, step).store.rt.clock == Reread(s.store.rt.clock, Taken(policy, s, step))
  {
    DoCases(policy, s, step);
    if OfAttempt(step) {
      if step.n in s.attempts {
        AttemptReads(policy, s, step);
      } else {
        NothingTaken(policy, s, step);
      }
    } else if step.Claim? {
      ClaimedReads(policy, s, step);
    } else if RelayRuns.MailStep(step) {
      MailReads(policy, s, step);
    } else if step.DropReader? {
      NothingTaken(policy, s, step);
    } else {
      QueueReads(policy, s, step);
    }
  }

  /** In every run the guard is what the readings taken since the store was opened make of it. */
  lemma {:induction false} RunsKeepTime(policy: Queue.Policy, steps: seq<Step>)
    ensures Run(policy, steps).store.rt.clock == Clock.After(Readings(policy, steps))
  {
    if steps != [] && !steps[|steps| - 1].Crash? {
      var before, step := steps[..|steps| - 1], steps[|steps| - 1];
      RunsKeepTime(policy, before);
      StepReads(policy, Run(policy, before), step);
      RereadAfter(Readings(policy, before), Taken(policy, Run(policy, before), step));
    } else if steps != [] {
      DoCases(policy, Run(policy, steps[..|steps| - 1]), steps[|steps| - 1]);
    }
  }

  // ---------------------------------------------------------------- the report due time

  /** The last trusted time, this reading included. */
  lemma DueIsTrusted(s: Queue.Store, rs: seq<Clock.Reading>, now: nat, r: Clock.Reading)
    requires s.rt.clock == Clock.After(rs) && r.wall.Some?
    ensures var t := Clock.Trusted(rs + [r]);
            t != [] && Queue.NoticeDue(s, now, r).1 == Ok(t[|t| - 1].wall.value)
  {
    Clock.TrustedTimes(rs);
    Clock.TrustedTimes(rs + [r]);
    assert (rs + [r])[..|rs|] == rs;
    GuardShape(rs);
  }

  /** A guard only distrusts the clock after it has trusted it once. */
  lemma {:induction false} GuardShape(rs: seq<Clock.Reading>)
    ensures Clock.After(rs).changed ==> Clock.Trusted(rs) != []
  {
    if rs != [] {
      GuardShape(rs[..|rs| - 1]);
      Clock.TrustedTimes(rs[..|rs| - 1]);
    }
  }

  /**
   * However the clocks jump, `queue_finish` writes the row of a valid lease, and the due time of a report
   * is the latest time this run has trusted since its store was opened, the reading of this call included.
   */
  lemma FinishDueIsTrusted(policy: Queue.Policy, steps: seq<Step>, lease: Queue.Lease, outcome: Queue.QueueResult,
                           r: Clock.Reading, guarded: Clock.Reading)
    requires Queue.Finish(Run(policy, steps).store, lease, outcome, r, guarded, Confirmed).1.Ok?
    ensures var t := Clock.Trusted(Readings(policy, steps) + [guarded]);
            var next := Queue.Finish(Run(policy, steps).store, lease, outcome, r, guarded, Confirmed).0;
            && t != [] && lease.id in next.db.deliveries
            && next.db.deliveries[lease.id].noticeDue == t[|t| - 1].wall.value
  {
    RunsKeepTime(policy, steps);
    FinishDueAs(Run(policy, steps).store, Readings(policy, steps), lease, outcome, r, guarded);
  }

  lemma FinishDueAs(s: Queue.Store, rs: seq<Clock.Reading>, lease: Queue.Lease, outcome: Queue.QueueResult,
                    r: Clock.Reading, guarded: Clock.Reading)
    requires s.rt.clock == Clock.After(rs) && Queue.Finish(s, lease, outcome, r, guarded, Confirmed).1.Ok?
    ensures var t, next := Clock.Trusted(rs + [guarded]), Queue.Finish(s, lease, outcome, r, guarded, Confirmed).0;
            && t != [] && lease.id in next.db.deliveries
            && next.db.deliveries[lease.id].noticeDue == t[|t| - 1].wall.value
  {
    FinishedDue(s, lease, outcome, r, guarded);
    DueIsTrusted(s, rs, r.wall.value, guarded);
  }

  lemma FinishedDue(s: Queue.Store, lease: Queue.Lease, outcome: Queue.QueueResult, r: Clock.Reading,
                    guarded: Clock.Reading)
    requires Queue.Finish(s, lease, outcome, r, guarded, Confirmed).1.Ok?
    ensures r.wall.Some? && guarded.wall.Some? && Queue.NoticeDue(s, r.wall.value, guarded).1.Ok?
    ensures var next := Queue.Finish(s, lease, outcome, r, guarded, Confirmed).0;
            && lease.id in next.db.deliveries
            && next.db.deliveries[lease.id].noticeDue == Queue.NoticeDue(s, r.wall.value, guarded).1.value
  {
  }
}
