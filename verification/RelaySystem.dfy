/**
 * The whole relay: the durable store, its in-memory owners, and the SMTP attempts they run
 * (execute in crates/server/src/relay.rs, try_attempt in crates/client/src/smtp.rs).
 * A run is any sequence of steps; crashes and lost commit answers may happen anywhere.
 */
module RelaySystem {
  import opened Wrappers
  import opened Tables
  import opened Moves
  import opened Transactions
  import Acceptance
  import Clock
  import Notification
  import Queue

  /** Where one attempt stands. `Abandoned`: nobody waits for it, but a request still holds its lease. */
  datatype Stage = Opening | Envelope | Marked | Dotted | Done(result: Queue.QueueResult) | Abandoned

  datatype Attempt = Attempt(lease: Queue.Lease, stage: Stage)

  /** `issued`, `dots` and `refused` are history: leases handed out, final dots sent, rejections recorded. */
  datatype Sys = Sys(
    store: Queue.Store, attempts: map<nat, Attempt>, readers: set<nat>,
    issued: map<nat, Queue.Lease>, dots: set<nat>, refused: set<nat>, serial: nat)

  const INITIAL := Sys(Queue.Reopened(EMPTY, 0), map[], {}, map[], {}, {}, 0)

  /** Guards with a strong reference: an attempt's lease or a body reader. */
  function Live(s: Sys): set<nat> { s.attempts.Keys + s.readers }

  /** `rejected`: how a refusal code ends an attempt. */
  function Rejected(code: nat): Queue.QueueResult {
    if 400 <= code <= 499 then Queue.Temporary(code)
    else if 500 <= code <= 599 then Queue.Permanent(code)
    else Queue.ConnectionLost
  }

  /** How the envelope exchange can fail before any body byte. */
  datatype EnvelopeFailure = Setup | ContentRefused | Refusal(code: nat) | Broken

  function EnvelopeResult(f: EnvelopeFailure): Queue.QueueResult {
    match f
    case Setup => Queue.Unavailable
    case ContentRefused => Queue.HoldBack
    case Refusal(code) => Rejected(code)
    case Broken => Queue.ConnectionLost
  }

  datatype Step =
    // the store's own work and its administrators
    | Expire(limit: nat, r: Clock.Reading, fate: Fate)
    | Recover(limit: nat, r: Clock.Reading, fate: Fate)
    | Claim(limit: nat, weather: Queue.Weather, draws: seq<Queue.Draw>)
    | HoldRow(id: Id, r: Clock.Reading, fate: Fate)
    | Retry(id: Id, dup: bool, extend: bool, r: Clock.Reading, fate: Fate)
    | Close(id: Id, note: string, r: Clock.Reading, fate: Fate)
    | Accept(q: Acceptance.Request, p: Acceptance.Prepared, ids: Acceptance.Fresh, r: Clock.Reading, fate: Fate)
    | Enqueue(plan: Acceptance.QueuePlan, p: Acceptance.Prepared, ids: Acceptance.Fresh, r: Clock.Reading, fate: Fate)
    | NoticeNext(policy: Notification.Policy, report: Id, size: Option<nat>, staged: bool, r: Clock.Reading,
                 again: Clock.Reading)
    | NoticePostpone(id: Id, r: Clock.Reading)
    | NoticeCommit(notice: Notification.Plan, p: Acceptance.Prepared, delivery: Id, r: Clock.Reading, fate: Fate)
    | ChangeAccounts(change: Change, fate: Fate)
    | Crash
    // one attempt
    | Open(n: nat, readable: bool)
    | FailEnvelope(n: nat, failure: EnvelopeFailure)
    | MarkBody(n: nat, fate: Fate)
    | FailBody(n: nat)
    | SendDot(n: nat)
    | Reply(n: nat, code: nat)
    | Lose(n: nat)
    | Renew(n: nat, r: Clock.Reading, fate: Fate)
    | Finish(n: nat, r: Clock.Reading, guarded: Clock.Reading, fate: Fate)
    | Abandon(n: nat)
    | DropLease(n: nat)
    | DropReader(n: nat)

  function At(s: Sys, n: nat, stage: Stage): Sys
    requires n in s.attempts
  {
    s.(attempts := s.attempts[n := s.attempts[n].(stage := stage)])
  }

  function IssueOne(s: Sys, l: Queue.Lease): Sys {
    s.(issued := s.issued[l.serial := l], attempts := s.attempts[l.serial := Attempt(l, Opening)],
       serial := s.serial + 1)
  }

  /** `serve` spawns one attempt per lease. */
  function Issue(s: Sys, leases: seq<Queue.Lease>): Sys
    decreases |leases|
  {
    if leases == [] then s else Issue(IssueOne(s, leases[0]), leases[1..])
  }

  /** A step of the database alone. */
  function Stored(s: Sys, step: Step): Queue.Store {
    var t := s.store;
    match step
    case Expire(limit, r, fate) => Queue.Expire(t, limit, r, fate).0
    case Recover(limit, r, fate) => Queue.Recover(t, limit, Live(s), r, fate).0
    case HoldRow(id, r, fate) => Queue.HoldRow(t, id, r, fate).0
    case Retry(id, dup, extend, r, fate) => Queue.Retry(t, id, dup, extend, r, fate).0
    case Close(id, note, r, fate) => Queue.CloseUnknown(t, id, note, r, fate).0
    case Accept(q, p, ids, r, fate) => t.(db := Acceptance.Accept(t.db, q, p, ids, r, fate).0)
    case Enqueue(plan, p, ids, r, fate) => t.(db := Acceptance.Enqueue(t.db, plan, p, ids, r, fate).0)
    case NoticeNext(policy, report, size, staged, r, again) =>
      Notification.Next(t, policy, report, size, staged, r, again).0
    case NoticePostpone(id, r) => Notification.Postpone(t, id, r).0
    case NoticeCommit(notice, p, delivery, r, fate) => Notification.CommitReport(t, notice, p, delivery, r, fate).0
    case ChangeAccounts(change, fate) =>
      var tx := Changed(t.db, change);
      if tx.Ok? then t.(db := Settle(t.db, tx.value, fate)) else t
    case _ => t
  }

  function Claimed(policy: Queue.Policy, s: Sys, limit: nat, w: Queue.Weather, draws: seq<Queue.Draw>): Sys {
    var (t, leases) := Queue.Claim(s.store, policy, limit, Live(s), w, draws, s.serial);
    if leases.Err? then s.(store := t) else Issue(s.(store := t), leases.value)
  }

  function Marking(s: Sys, n: nat, fate: Fate): Sys
    requires n in s.attempts
  {
    var stage := s.attempts[n].stage;
    if stage != Envelope && stage != Abandoned then s
    else
      var (t, done) := Queue.MarkBody(s.store, s.attempts[n].lease, fate);
      var s1 := s.(store := t);
      if stage == Abandoned then s1 else At(s1, n, if done.Ok? then Marked else Done(Queue.ConnectionLost))
  }

  predicate Refusing(result: Queue.QueueResult) { result.Temporary? || result.Permanent? }

  function Finishing(s: Sys, n: nat, r: Clock.Reading, guarded: Clock.Reading, fate: Fate): Sys
    requires n in s.attempts
  {
    var a := s.attempts[n];
    if !a.stage.Done? then s
    else
      var (t, done) := Queue.Finish(s.store, a.lease, a.stage.result, r, guarded, fate);
      var recorded := done.Ok? || (done == Err(OutcomeUnknown) && fate == AppliedUnknown);
      s.(store := t, attempts := s.attempts - {n},
         refused := if recorded && Refusing(a.stage.result) then s.refused + {n} else s.refused)
  }

  /** The steps of one attempt: what `execute` and `try_attempt` do, in any interleaving. */
  function Attempted(s: Sys, step: Step, n: nat): Sys
    requires n in s.attempts
  {
    var stage := s.attempts[n].stage;
    match step
    case Open(_, readable) =>
      if stage != Opening then s
      else if readable then At(s.(readers := s.readers + {n}), n, Envelope)
      else At(s, n, Done(Queue.HoldBack))
    case FailEnvelope(_, failure) => if stage == Envelope then At(s, n, Done(EnvelopeResult(failure))) else s
    case MarkBody(_, fate) => Marking(s, n, fate)
    case FailBody(_) => if stage == Marked then At(s, n, Done(Queue.HoldBack)) else s
    case SendDot(_) => if stage == Marked then At(s.(dots := s.dots + {n}), n, Dotted) else s
    case Reply(_, code) =>
      if stage != Dotted then s
      else At(s, n, Done(if 200 <= code < 300 then Queue.Accepted(code) else Rejected(code)))
    case Lose(_) =>
      if stage in {Envelope, Marked, Dotted} then At(s, n, Done(Queue.ConnectionLost)) else s
    case Renew(_, r, fate) =>
      if stage !in {Envelope, Marked, Dotted} then s
      else
        var (t, done) := Queue.Renew(s.store, s.attempts[n].lease, 300, r, fate);
        if done.Ok? then s.(store := t) else At(s.(store := t), n, Done(Queue.ConnectionLost))
    case Finish(_, r, guarded, fate) => Finishing(s, n, r, guarded, fate)
    case Abandon(_) => At(s, n, Abandoned)
    case DropLease(_) => s.(attempts := s.attempts - {n})
    case _ => s
  }

  predicate OfAttempt(step: Step) {
    step.Open? || step.FailEnvelope? || step.MarkBody? || step.FailBody? || step.SendDot? || step.Reply?
    || step.Lose? || step.Renew? || step.Finish? || step.Abandon? || step.DropLease?
  }

  function Do(policy: Queue.Policy, s: Sys, step: Step): Sys {
    if OfAttempt(step) then if step.n in s.attempts then Attempted(s, step, step.n) else s
    else
      match step
      case Claim(limit, w, draws) => Claimed(policy, s, limit, w, draws)
      case Crash => s.(store := Queue.Reopened(s.store.db, s.store.rt.lock + 1), attempts := map[], readers := {})
      case DropReader(n) => s.(readers := s.readers - {n})
      case _ => s.(store := Stored(s, step))
  }

  /** The kinds of steps. */
  lemma DoCases(policy: Queue.Policy, s: Sys, step: Step)
    ensures OfAttempt(step) ==> Do(policy, s, step) == if step.n in s.attempts then Attempted(s, step, step.n) else s
    ensures step.Claim? ==> Do(policy, s, step) == Claimed(policy, s, step.limit, step.weather, step.draws)
    ensures step.Crash? ==>
              Do(policy, s, step)
              == s.(store := Queue.Reopened(s.store.db, s.store.rt.lock + 1), attempts := map[], readers := {})
    ensures step.DropReader? ==> Do(policy, s, step) == s.(readers := s.readers - {step.n})
    ensures !OfAttempt(step) && !step.Claim? && !step.Crash? && !step.DropReader? ==>
              Do(policy, s, step) == s.(store := Stored(s, step))
  {
  }

  function RunFrom(policy: Queue.Policy, s: Sys, steps: seq<Step>): Sys {
    if steps == [] then s else Do(policy, RunFrom(policy, s, steps[..|steps| - 1]), steps[|steps| - 1])
  }

  function Run(policy: Queue.Policy, steps: seq<Step>): Sys { RunFrom(policy, INITIAL, steps) }

  lemma {:induction false} RunContinues(policy: Queue.Policy, steps: seq<Step>, more: seq<Step>)
    ensures Run(policy, steps + more) == RunFrom(policy, Run(policy, steps), more)
  {
    if more == [] {
      assert steps + more == steps;
    } else {
      RunContinues(policy, steps, more[..|more| - 1]);
      assert (steps + more)[..|steps + more| - 1] == steps + more[..|more| - 1];
    }
  }

  // ---------------------------------------------------------------- invariants

  ghost predicate Wired(s: Sys) {
    && (forall n :: n in s.issued ==> s.issued[n].serial == n < s.serial)
    && (forall n :: n in s.attempts ==> n in s.issued && s.attempts[n].lease == s.issued[n])
    && s.readers <= s.issued.Keys
    && (forall n :: n in Live(s) ==>
          && s.issued[n].lock == s.store.rt.lock && s.issued[n].id in s.store.rt.active
          && s.store.rt.active[s.issued[n].id] == Queue.Guard(n, s.issued[n].domain))
    && (forall id :: id in s.store.rt.active ==> s.store.rt.active[id].serial < s.serial)
  }

  /** What a stage implies about the durable phase and the wire. */
  ghost predicate StageOk(stage: Stage, phase: Phase, dotted: bool) {
    match stage
    case Opening => phase == Ready && !dotted
    case Envelope => phase == Ready && !dotted
    case Marked => phase == Body && !dotted
    case Dotted => phase == Body && dotted
    case Done(result) =>
      && Queue.Verdict(phase, result).Some?
      && (dotted ==> phase == Body && !result.HoldBack? && !result.Unavailable?)
    case Abandoned => dotted ==> phase == Body
  }

  ghost predicate AttemptOk(s: Sys, n: nat)
    requires n in s.attempts
  {
    && Queue.CheckLease(s.store, s.attempts[n].lease).Some?
    && StageOk(s.attempts[n].stage, Queue.CheckLease(s.store, s.attempts[n].lease).value, n in s.dots)
    && n !in s.refused
  }

  /** Every attempt's lease is the valid one. */
  ghost predicate Held(s: Sys) { forall n :: n in s.attempts ==> AttemptOk(s, n) }

  ghost predicate Numbered(s: Sys) {
    && (forall n :: n in s.issued ==>
          s.issued[n].id in s.store.db.deliveries
          && s.issued[n].generation <= s.store.db.deliveries[s.issued[n].id].generation)
    && (forall m, n :: m in s.issued && n in s.issued && m != n && s.issued[m].id == s.issued[n].id
                       ==> s.issued[m].generation != s.issued[n].generation)
  }

  /** Every sent dot is accounted for by its row. */
  ghost predicate Honest(s: Sys) {
    && s.dots <= s.issued.Keys && s.refused <= s.issued.Keys
    && forall n :: n in s.dots && s.issued[n].id in s.store.db.deliveries ==>
         Accounted(ViewOf(s.store.db, s.issued[n].id), s.issued[n].generation, n in s.refused)
  }

  /** Attempts of a delivery that sent the final dot and have no recorded 4xx/5xx. */
  function Unresolved(s: Sys, id: Id): set<nat> {
    set n | n in s.dots && n !in s.refused && n in s.issued && s.issued[n].id == id
  }

  /** The attempt now holding the row has sent its dot. */
  ghost predicate DottedNow(s: Sys, id: Id)
    requires id in s.store.db.deliveries
  {
    exists n :: n in s.dots && n in s.issued && s.issued[n].id == id
                && LeasedTo(ViewOf(s.store.db, id), s.issued[n].generation)
  }

  ghost function Slack(s: Sys, id: Id): nat
    requires id in s.store.db.deliveries
  {
    SlackOf(ViewOf(s.store.db, id), DottedNow(s, id))
  }

  ghost predicate Bounded(s: Sys) {
    forall id :: id in s.store.db.deliveries ==>
      |Unresolved(s, id)| <= Consents(s.store.db.admin, id) + Slack(s, id)
  }

  ghost predicate Good(s: Sys) {
    DbOk(s.store.db) && Wired(s) && Held(s) && Numbered(s) && Honest(s) && Bounded(s)
  }

  function Owned(s: Sys): set<Id> { set n | n in s.attempts :: s.attempts[n].lease.id }

  // ---------------------------------------------------------------- steps of the store

  /** A sound transaction under unchanged owners. */
  ghost predicate StoreStep(s: Sys, t: Queue.Store) {
    && Sound(s.store.db, t.db, Owned(s))
    && t.rt.lock == s.store.rt.lock
    && (forall id :: id in t.rt.active ==> id in s.store.rt.active && t.rt.active[id] == s.store.rt.active[id])
    && (forall id :: id in s.store.rt.active && s.store.rt.active[id].serial in Live(s) ==> id in t.rt.active)
  }

  lemma StoreStepHolds(s: Sys, t: Queue.Store, n: nat)
    requires Good(s) && StoreStep(s, t) && n in s.attempts
    ensures AttemptOk(s.(store := t), n)
  {
    var id := s.attempts[n].lease.id;
    assert AttemptOk(s, n) && id in Owned(s);
    assert Still(ViewOf(s.store.db, id), ViewOf(t.db, id));
  }

  lemma StoreStepDot(s: Sys, t: Queue.Store, n: nat)
    requires Good(s) && StoreStep(s, t) && n in s.dots
    ensures s.issued[n].id in t.db.deliveries
    ensures Accounted(ViewOf(t.db, s.issued[n].id), s.issued[n].generation, n in s.refused)
  {
    var id := s.issued[n].id;
    assert id in s.store.db.deliveries;
    MoveAccounts(ViewOf(s.store.db, id), ViewOf(t.db, id), s.issued[n].generation, n in s.refused);
  }

  lemma StoreStepNumbers(s: Sys, t: Queue.Store)
    requires Numbered(s) && Evolves(s.store.db, t.db, Owned(s))
    ensures Numbered(s.(store := t))
  {
    forall n | n in s.issued
      ensures s.issued[n].id in t.db.deliveries
              && s.issued[n].generation <= t.db.deliveries[s.issued[n].id].generation
    {
      var id := s.issued[n].id;
      assert Still(ViewOf(s.store.db, id), ViewOf(t.db, id)) || FreeMove(ViewOf(s.store.db, id), ViewOf(t.db, id));
    }
  }

  lemma StoreStepSlack(s: Sys, t: Queue.Store, id: Id)
    requires Good(s) && StoreStep(s, t) && id in s.store.db.deliveries
    ensures id in t.db.deliveries
    ensures Consents(s.store.db.admin, id) + Slack(s, id) <= Consents(t.db.admin, id) + Slack(s.(store := t), id)
  {
    var v, w := ViewOf(s.store.db, id), ViewOf(t.db, id);
    var s' := s.(store := t);
    if DottedNow(s, id) {
      var n :| n in s.dots && n in s.issued && s.issued[n].id == id && LeasedTo(v, s.issued[n].generation);
      assert Accounted(v, s.issued[n].generation, n in s.refused);
      assert Still(v, w) ==> LeasedTo(w, s.issued[n].generation);
    }
    MovePays(v, w, DottedNow(s, id), DottedNow(s', id));
  }

  lemma NoneUnresolved(s: Sys, id: Id)
    requires Numbered(s) && id !in s.store.db.deliveries
    ensures Unresolved(s, id) == {}
  {
  }

  lemma StoreStepBounds(s: Sys, t: Queue.Store)
    requires Good(s) && StoreStep(s, t)
    ensures Bounded(s.(store := t))
  {
    var s' := s.(store := t);
    forall id | id in t.db.deliveries
      ensures |Unresolved(s', id)| <= Consents(t.db.admin, id) + Slack(s', id)
    {
      assert Unresolved(s', id) == Unresolved(s, id);
      if id in s.store.db.deliveries {
        StoreStepSlack(s, t, id);
      } else {
        NoneUnresolved(s, id);
      }
    }
  }

  lemma StoreStepWires(s: Sys, t: Queue.Store)
    requires Wired(s) && StoreStep(s, t)
    ensures Wired(s.(store := t))
  {
    assert Live(s.(store := t)) == Live(s);
  }

  lemma StoreStepHonest(s: Sys, t: Queue.Store)
    requires Good(s) && StoreStep(s, t)
    ensures Held(s.(store := t)) && Honest(s.(store := t))
  {
    var s' := s.(store := t);
    forall n | n in s.attempts ensures AttemptOk(s', n) {
      StoreStepHolds(s, t, n);
    }
    forall n | n in s.dots
      ensures s.issued[n].id in t.db.deliveries
              && Accounted(ViewOf(t.db, s.issued[n].id), s.issued[n].generation, n in s.refused)
    {
      StoreStepDot(s, t, n);
    }
  }

  lemma StoreStepKeeps(s: Sys, t: Queue.Store)
    requires Good(s) && StoreStep(s, t)
    ensures Good(s.(store := t))
  {
    StoreStepWires(s, t);
    StoreStepHonest(s, t);
    StoreStepNumbers(s, t);
    StoreStepBounds(s, t);
  }
}
