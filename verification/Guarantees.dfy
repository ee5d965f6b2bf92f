/** What holds in every run of the relay. */
module Guarantees {
  import opened Wrappers
  import opened Tables
  import opened Moves
  import opened RelaySystem
  import AttemptRuns
  import Clock
  import Queue
  import RelayRuns

  lemma AttemptStepKeeps(s: Sys, step: Step)
    requires Good(s) && OfAttempt(step) && step.n in s.attempts
    ensures Good(Attempted(s, step, step.n))
  {
    if step.Open? {
      AttemptRuns.OpenKeeps(s, step.n, step);
    } else if step.Renew? {
      AttemptRuns.RenewKeeps(s, step.n, step);
    } else if step.MarkBody? || step.SendDot? || step.Finish? || step.DropLease? {
      AttemptRuns.OtherwiseKeeps(s, step.n, step);
    } else {
      AttemptRuns.StagingKeeps(s, step.n, step);
    }
  }

  lemma DatabaseStepKeeps(s: Sys, step: Step)
    requires Good(s) && !OfAttempt(step) && !step.Claim? && !step.Crash? && !step.DropReader?
    ensures StoreStep(s, Stored(s, step))
  {
    if RelayRuns.MailStep(step) {
      RelayRuns.MailStepKeeps(s, step);
    } else {
      RelayRuns.QueueStepKeeps(s, step);
    }
  }

  lemma StoreStepIs(s: Sys, step: Step)
    requires Good(s) && !OfAttempt(step) && !step.Claim? && !step.Crash? && !step.DropReader?
    ensures Good(s.(store := Stored(s, step)))
  {
    DatabaseStepKeeps(s, step);
    StoreStepKeeps(s, Stored(s, step));
  }

  lemma StepKeeps(policy: Queue.Policy, s: Sys, step: Step)
    requires Good(s)
    ensures Good(Do(policy, s, step))
  {
    DoCases(policy, s, step);
    if OfAttempt(step) {
      if step.n in s.attempts {
        AttemptStepKeeps(s, step);
      }
    } else if step.Claim? {
      RelayRuns.ClaimKeeps(policy, s, step.limit, step.weather, step.draws);
    } else if step.Crash? || step.DropReader? {
      AttemptRuns.ForgettingKeeps(s, Do(policy, s, step));
    } else {
      StoreStepIs(s, step);
    }
  }

  lemma StartsGood()
    ensures Good(INITIAL)
  {
  }

  /** The cross-table, ownership and accounting invariants hold in every reachable state. */
  lemma {:induction false} RunsAreGood(policy: Queue.Policy, steps: seq<Step>)
    ensures Good(Run(policy, steps))
  {
    if steps == [] {
      StartsGood();
    } else {
      RunsAreGood(policy, steps[..|steps| - 1]);
      StepKeeps(policy, Run(policy, steps[..|steps| - 1]), steps[|steps| - 1]);
    }
  }

  /**
   * At most one attempt of a delivery sent the final dot without a durably recorded refusal,
   * plus one for each administrator retry recorded with duplicate consent.
   */
  lemma NoUnapprovedDuplicate(policy: Queue.Policy, steps: seq<Step>, id: Id)
    requires id in Run(policy, steps).store.db.deliveries
    ensures var s := Run(policy, steps);
            |Unresolved(s, id)| <= 1 + Consents(s.store.db.admin, id)
  {
    RunsAreGood(policy, steps);
  }

  /** Body bytes and the dot go out only under a durable body mark of the attempt's own valid lease. */
  lemma BodyOnlyAfterMark(policy: Queue.Policy, steps: seq<Step>, n: nat)
    requires n in Run(policy, steps).attempts && Run(policy, steps).attempts[n].stage in {Marked, Dotted}
    ensures var s := Run(policy, steps); Queue.CheckLease(s.store, s.attempts[n].lease) == Some(Body)
  {
    RunsAreGood(policy, steps);
    assert AttemptOk(Run(policy, steps), n);
  }

  /** `queue_finish` accepts every result an attempt can end with; only clocks and commits can fail it. */
  lemma FinishAcceptsEveryResult(policy: Queue.Policy, steps: seq<Step>, n: nat,
                                 r: Clock.Reading, guarded: Clock.Reading, fate: Fate)
    requires n in Run(policy, steps).attempts && Run(policy, steps).attempts[n].stage.Done?
    requires r.wall.Some? && guarded.wall.Some?
    ensures var s := Run(policy, steps);
            var a := s.attempts[n];
            Queue.Finish(s.store, a.lease, a.stage.result, r, guarded, fate).1
            == if fate.Confirmed? then Ok(()) else Err(OutcomeUnknown)
  {
    RunsAreGood(policy, steps);
    var s := Run(policy, steps);
    assert AttemptOk(s, n);
    AttemptRuns.FinishOutcome(s.store, s.attempts[n].lease, s.attempts[n].stage.result, r, guarded, fate);
  }

  /**
   * A row that neither carries the flag, nor is delivered, nor is being attempted has no attempt
   * that could have delivered it: in particular a failed delivery certainly failed.
   */
  lemma UnflaggedMeansUndelivered(policy: Queue.Policy, steps: seq<Step>, id: Id)
    requires id in Run(policy, steps).store.db.deliveries
    requires var d := Run(policy, steps).store.db.deliveries[id];
             !d.possiblyDelivered && d.state != Delivered && d.state != Leased
    ensures Unresolved(Run(policy, steps), id) == {}
  {
    RunsAreGood(policy, steps);
    var s := Run(policy, steps);
    assert forall n :: n in s.dots && n in s.issued && s.issued[n].id == id ==>
      Accounted(ViewOf(s.store.db, id), s.issued[n].generation, n in s.refused);
  }

  /** The converse bookkeeping: the lease in force is unique among all leases ever issued. */
  lemma OneValidLease(policy: Queue.Policy, steps: seq<Step>, m: nat, n: nat)
    requires var s := Run(policy, steps);
             && m in s.issued && n in s.issued && s.issued[m].id == s.issued[n].id
             && Queue.CheckLease(s.store, s.issued[m]).Some? && Queue.CheckLease(s.store, s.issued[n]).Some?
    ensures m == n
  {
    RunsAreGood(policy, steps);
  }

  /** While a lease or a body reader is alive no other lease of that delivery is. */
  lemma OneOwner(policy: Queue.Policy, steps: seq<Step>, m: nat, n: nat)
    requires var s := Run(policy, steps);
             m in Live(s) && n in Live(s) && m in s.issued && n in s.issued && s.issued[m].id == s.issued[n].id
    ensures m == n
  {
    RunsAreGood(policy, steps);
  }
}
