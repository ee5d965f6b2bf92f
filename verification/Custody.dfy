/**
 * Database and files together: the relay commits rows only for prepared files, and a crash takes the memory
 * of both, so every message row of every joint run has its contents on stable storage.
 */
module Custody {
  import opened Wrappers
  import opened Tables
  import opened Framing
  import Acceptance
  import Addresses
  import Clock
  import Durability
  import Growth
  import Guarantees
  import Integrity
  import Notification
  import Ordering
  import Queue
  import RelayRuns
  import RelaySystem
  import Replay
  import Reports
  import Transactions

  /** What stays fixed over a run. */
  datatype World = World(policy: Queue.Policy, options: Durability.Options, sha: seq<Byte> -> string)

  datatype Joint = Joint(relay: RelaySystem.Sys, files: Durability.Sys)

  const START := Joint(RelaySystem.INITIAL, Durability.NEW)

  /** A step of the relay, a step on files, or a crash of both. */
  datatype Event =
    | Relaying(relay: RelaySystem.Step)
    | Filing(work: Durability.Step)
    | Crashing(kept: set<Id>, garbage: map<Id, seq<Byte>>)

  predicate Inserting(step: RelaySystem.Step) { step.Accept? || step.Enqueue? || step.NoticeCommit? }

  /** A prepared message is the description of a durable stage, and of nothing else. */
  predicate Describes(s: Durability.Sys, p: Acceptance.Prepared, sha: seq<Byte> -> string) {
    && p.id in s.works && s.works[p.id].point == Durability.Durable
    && p.size == s.works[p.id].stage.size && p.hash == sha(s.works[p.id].stage.hashed)
  }

  predicate Offered(w: World, s: Joint, step: RelaySystem.Step) {
    Inserting(step) ==> Describes(s.files, step.p, w.sha)
  }

  /** What the relay makes of an event ... */
  function RelayStep(w: World, s: Joint, e: Event): Option<RelaySystem.Step> {
    match e
    case Relaying(step) => if step.Crash? || !Offered(w, s, step) then None else Some(step)
    case Filing(_) => None
    case Crashing(_, _) => Some(RelaySystem.Crash)
  }

  /** ... and the files: an inserting call takes its prepared message, with a row if its transaction was applied. */
  function FileStep(w: World, s: Joint, e: Event): Option<Durability.Step> {
    match e
    case Relaying(step) =>
      if !Inserting(step) || !Offered(w, s, step) then None
      else
        var applied := step.p.id in RelaySystem.Do(w.policy, s.relay, step).store.db.blobs;
        Some(Durability.Commit(step.p.id, if applied then Confirmed else LostUnknown))
    case Filing(step) => if step.Commit? || step.Crash? then None else Some(step)
    case Crashing(kept, garbage) => Some(Durability.Crash(kept, garbage))
  }

  function Do(w: World, s: Joint, e: Event): Joint
    requires w.options.sizes.Valid()
  {
    var r, f := RelayStep(w, s, e), FileStep(w, s, e);
    Joint(if r.Some? then RelaySystem.Do(w.policy, s.relay, r.value) else s.relay,
          if f.Some? then Durability.Do(s.files, f.value, w.options, w.sha) else s.files)
  }

  function Run(w: World, events: seq<Event>): Joint
    requires w.options.sizes.Valid()
  {
    if events == [] then START else Do(w, Run(w, events[..|events| - 1]), events[|events| - 1])
  }

  // ---------------------------------------------------------------- both halves are runs of their own

  function RelaySteps(w: World, events: seq<Event>): seq<RelaySystem.Step>
    requires w.options.sizes.Valid()
  {
    if events == [] then []
    else
      var before := events[..|events| - 1];
      RelaySteps(w, before) + AsList(RelayStep(w, Run(w, before), events[|events| - 1]))
  }

  function FileSteps(w: World, events: seq<Event>): seq<Durability.Step>
    requires w.options.sizes.Valid()
  {
    if events == [] then []
    else
      var before := events[..|events| - 1];
      FileSteps(w, before) + AsList(FileStep(w, Run(w, before), events[|events| - 1]))
  }

  lemma RelayOneMore(policy: Queue.Policy, steps: seq<RelaySystem.Step>, next: Option<RelaySystem.Step>)
    ensures RelaySystem.Run(policy, steps + AsList(next))
            == if next.Some? then RelaySystem.Do(policy, RelaySystem.Run(policy, steps), next.value)
               else RelaySystem.Run(policy, steps)
  {
    if next.Some? {
      assert (steps + [next.value])[..|steps|] == steps;
    } else {
      assert steps + [] == steps;
    }
  }

  lemma FilesOneMore(w: World, steps: seq<Durability.Step>, next: Option<Durability.Step>)
    requires w.options.sizes.Valid()
    ensures Durability.Run(steps + AsList(next), w.options, w.sha)
            == if next.Some? then Durability.Do(Durability.Run(steps, w.options, w.sha), next.value, w.options, w.sha)
               else Durability.Run(steps, w.options, w.sha)
  {
    if next.Some? {
      assert (steps + [next.value])[..|steps|] == steps;
    } else {
      assert steps + [] == steps;
    }
  }

  /** So everything proved of the relay alone and of the files alone holds here. */
  lemma {:induction false} HalvesAreRuns(w: World, events: seq<Event>)
    requires w.options.sizes.Valid()
    ensures Run(w, events).relay == RelaySystem.Run(w.policy, RelaySteps(w, events))
    ensures Run(w, events).files == Durability.Run(FileSteps(w, events), w.options, w.sha)
  {
    if events != [] {
      var before, e := events[..|events| - 1], events[|events| - 1];
      HalvesAreRuns(w, before);
      RelayOneMore(w.policy, RelaySteps(w, before), RelayStep(w, Run(w, before), e));
      FilesOneMore(w, FileSteps(w, before), FileStep(w, Run(w, before), e));
    }
  }

  // ---------------------------------------------------------------- which blob rows a step adds

  /** At most the row of `p` is added. */
  predicate AddsBlob(db: Db, next: Db, p: Acceptance.Prepared) {
    || next.blobs == db.blobs
    || (p.id !in db.blobs && next.blobs == db.blobs[p.id := Blob(p.size, p.hash)])
  }

  lemma HeadedBlobs(db: Db, m: Id, msg: Message, p: Acceptance.Prepared)
    requires msg.blob == p.id && Growth.Headed(db, m, msg, Blob(p.size, p.hash)).Ok?
    ensures AddsBlob(db, Growth.Headed(db, m, msg, Blob(p.size, p.hash)).value, p)
  {
  }

  lemma AcceptBlobs(db: Db, q: Acceptance.Request, p: Acceptance.Prepared, ids: Acceptance.Fresh, now: int)
    requires Acceptance.AcceptNew(db, q, p, ids, now).Ok?
    ensures AddsBlob(db, Acceptance.AcceptNew(db, q, p, ids, now).value, p)
  {
    Growth.AcceptNewSplits(db, q, p, ids, now);
    HeadedBlobs(db, ids.message, Growth.NewMessage(q, p), p);
    var head := Growth.Headed(db, ids.message, Growth.NewMessage(q, p), Blob(p.size, p.hash)).value;
    var local := Acceptance.LocalKeys(q.plan.recipients);
    Growth.DeliverAllAdds(head, Ordering.InOrder(local), ids.message, p.size, Acceptance.Supply(ids.local, |local|),
                          now);
    if q.Relayed? {
      var remote := Acceptance.RemoteOf(q);
      Growth.InsertRelayAdds(Growth.Delivering(db, q, p, ids, now).value, ids.message, remote,
                             Acceptance.MetaOf(q).value,
                             Acceptance.Supply(ids.relay, |remote|), now);
    }
  }

  lemma EnqueueBlobs(db: Db, plan: Acceptance.QueuePlan, p: Acceptance.Prepared, ids: Acceptance.Fresh, now: int)
    requires Acceptance.EnqueueNew(db, plan, p, ids, now).Ok?
    ensures AddsBlob(db, Acceptance.EnqueueNew(db, plan, p, ids, now).value, p)
  {
    var msg := Message(Operation(plan.operation), p.id, Import, Acceptance.SenderText(plan.sender), None);
    HeadedBlobs(db, ids.message, msg, p);
    var remote := Acceptance.Texts(plan.recipients);
    Growth.InsertRelayAdds(Growth.Headed(db, ids.message, msg, Blob(p.size, p.hash)).value, ids.message, remote,
                           QueueMeta(plan.body, plan.maxAge), Acceptance.Supply(ids.relay, |remote|), now);
  }

  lemma ReportingBlobs(db: Db, plan: Notification.Plan, p: Acceptance.Prepared, delivery: Id, now: int)
    requires Reports.Reporting(db, plan, p, delivery, now).Ok?
    ensures AddsBlob(db, Reports.Reporting(db, plan, p, delivery, now).value, p)
  {
    var msg := Reports.ReportMessage(plan, p);
    HeadedBlobs(db, plan.report, msg, p);
    var head := Growth.Headed(db, plan.report, msg, Blob(p.size, p.hash)).value;
    if plan.local {
      Reports.DeliverAdds(head, Addresses.LocalKey(plan.recipient), plan.report, p.size, delivery, now);
    } else {
      Growth.InsertRelayAdds(head, plan.report, {plan.recipient}, QueueMeta(SevenBit, plan.maxAge), [delivery], now);
    }
  }

  lemma ReportBlobs(db: Db, plan: Notification.Plan, p: Acceptance.Prepared, delivery: Id, now: int)
    requires Notification.CommitNew(db, plan, p, delivery, now).Ok?
    ensures AddsBlob(db, Notification.CommitNew(db, plan, p, delivery, now).value, p)
  {
    Reports.CommitSplits(db, plan, p, delivery, now);
    ReportingBlobs(db, plan, p, delivery, now);
  }

  lemma AcceptedBlobs(db: Db, q: Acceptance.Request, p: Acceptance.Prepared, ids: Acceptance.Fresh, r: Clock.Reading,
                      fate: Fate)
    ensures AddsBlob(db, Acceptance.Accept(db, q, p, ids, r, fate).0, p)
  {
    Transactions.AcceptWrites(db, q, p, ids, r, fate);
    if Acceptance.Accept(db, q, p, ids, r, fate).0 != db {
      AcceptBlobs(db, q, p, ids, r.wall.value);
    }
  }

  lemma EnqueuedBlobs(db: Db, plan: Acceptance.QueuePlan, p: Acceptance.Prepared, ids: Acceptance.Fresh,
                      r: Clock.Reading, fate: Fate)
    ensures AddsBlob(db, Acceptance.Enqueue(db, plan, p, ids, r, fate).0, p)
  {
    Transactions.EnqueueWrites(db, plan, p, ids, r, fate);
    if Acceptance.Enqueue(db, plan, p, ids, r, fate).0 != db {
      EnqueueBlobs(db, plan, p, ids, r.wall.value);
    }
  }

  lemma ReportedBlobs(s: Queue.Store, plan: Notification.Plan, p: Acceptance.Prepared, delivery: Id, r: Clock.Reading,
                      fate: Fate)
    ensures AddsBlob(s.db, Notification.CommitReport(s, plan, p, delivery, r, fate).0.db, p)
  {
    var now := Transactions.CommitReportWrites(s, plan, p, delivery, r, fate);
    if Notification.CommitReport(s, plan, p, delivery, r, fate).0.db != s.db {
      ReportBlobs(s.db, plan, p, delivery, now);
    }
  }

  lemma InsertingBlobs(policy: Queue.Policy, s: RelaySystem.Sys, step: RelaySystem.Step)
    requires Inserting(step)
    ensures AddsBlob(s.store.db, RelaySystem.Do(policy, s, step).store.db, step.p)
  {
    RelaySystem.DoCases(policy, s, step);
    RelayRuns.StoredMail(s, step);
    if step.Accept? {
      AcceptedBlobs(s.store.db, step.q, step.p, step.ids, step.r, step.fate);
    } else if step.Enqueue? {
      EnqueuedBlobs(s.store.db, step.plan, step.p, step.ids, step.r, step.fate);
    } else {
      ReportedBlobs(s.store, step.notice, step.p, step.delivery, step.r, step.fate);
    }
  }

  // ---------------------------------------------------------------- the rows are the same

  predicate SameRows(blobs: map<Id, Blob>, rows: map<Id, Durability.Row>) {
    && blobs.Keys == rows.Keys
    && forall id :: id in rows ==> rows[id] == Durability.Row(blobs[id].size, blobs[id].hash)
  }

  /** The blob table is the row table of the files. */
  predicate Matched(s: Joint) { SameRows(s.relay.store.db.blobs, s.files.rows) }

  lemma RowsKept(s: Durability.Sys, step: Durability.Step, o: Durability.Options, sha: seq<Byte> -> string)
    requires o.sizes.Valid() && !step.Commit?
    ensures Durability.Do(s, step, o, sha).rows == s.rows
  {
  }

  lemma CommittedRow(s: Durability.Sys, p: Acceptance.Prepared, fate: Fate, o: Durability.Options,
                     sha: seq<Byte> -> string)
    requires o.sizes.Valid() && Describes(s, p, sha) && p.id !in s.rows
    ensures Durability.Do(s, Durability.Commit(p.id, fate), o, sha).rows
            == if fate.LostUnknown? then s.rows else s.rows[p.id := Durability.Row(p.size, p.hash)]
  {
  }

  lemma InsertedIs(w: World, s: Joint, step: RelaySystem.Step)
    requires w.options.sizes.Valid() && Inserting(step) && Describes(s.files, step.p, w.sha)
             && step.p.id !in s.files.rows
    ensures var t := Do(w, s, Relaying(step));
            && t.relay == RelaySystem.Do(w.policy, s.relay, step)
            && t.files.rows == if step.p.id !in t.relay.store.db.blobs then s.files.rows
                               else s.files.rows[step.p.id := Durability.Row(step.p.size, step.p.hash)]
  {
    var applied := step.p.id in RelaySystem.Do(w.policy, s.relay, step).store.db.blobs;
    CommittedRow(s.files, step.p, if applied then Confirmed else LostUnknown, w.options, w.sha);
  }

  lemma InsertMatches(w: World, s: Joint, step: RelaySystem.Step)
    requires w.options.sizes.Valid() && Matched(s) && Inserting(step) && Describes(s.files, step.p, w.sha)
    requires step.p.id !in s.files.rows
    ensures Matched(Do(w, s, Relaying(step)))
  {
    InsertingBlobs(w.policy, s.relay, step);
    InsertedIs(w, s, step);
  }

  lemma StepMatches(w: World, s: Joint, e: Event)
    requires w.options.sizes.Valid() && Matched(s) && Durability.Safe(s.files, w.options, w.sha)
    ensures Matched(Do(w, s, e))
  {
    match e {
      case Relaying(step) =>
        if RelayStep(w, s, e).Some? {
          if Inserting(step) {
            assert Durability.WorkHolds(s.files, step.p.id, w.options);
            InsertMatches(w, s, step);
          } else {
            Integrity.StepFiles(w.policy, s.relay, step);
          }
        }
      case Filing(step) => if !step.Commit? {
        RowsKept(s.files, step, w.options, w.sha);
      }
      case Crashing(kept, garbage) =>
        Integrity.StepFiles(w.policy, s.relay, RelaySystem.Crash);
        RowsKept(s.files, Durability.Crash(kept, garbage), w.options, w.sha);
    }
  }

  lemma {:induction false} RunsMatch(w: World, events: seq<Event>)
    requires w.options.sizes.Valid()
    ensures Matched(Run(w, events)) && Durability.Safe(Run(w, events).files, w.options, w.sha)
  {
    HalvesAreRuns(w, events);
    Durability.RunsAreSafe(FileSteps(w, events), w.options, w.sha);
    if events != [] {
      RunsMatch(w, events[..|events| - 1]);
      StepMatches(w, Run(w, events[..|events| - 1]), events[|events| - 1]);
    }
  }

  // ---------------------------------------------------------------- the theorems

  /** The contents of message `m`, as recorded, are on stable storage. */
  predicate Kept(w: World, s: Joint, m: Id) {
    var db, disk := s.relay.store.db, s.files.disk;
    && m in db.messages && db.messages[m].blob in db.blobs
    && var id := db.messages[m].blob;
       Durability.OnDisk(disk, id) && |disk.data[id]| == db.blobs[id].size && w.sha(disk.data[id]) == db.blobs[id].hash
  }

  lemma BlobIsThere(w: World, events: seq<Event>, m: Id)
    requires w.options.sizes.Valid() && m in Run(w, events).relay.store.db.messages
    ensures Run(w, events).relay.store.db.messages[m].blob in Run(w, events).relay.store.db.blobs
  {
    HalvesAreRuns(w, events);
    Guarantees.RunsAreGood(w.policy, RelaySteps(w, events));
    assert Growth.MessageOk(Run(w, events).relay.store.db, m);
  }

  /**
   * Whatever is received, relayed, reported, cancelled, collected or lost in a crash: every message in the
   * database has the contents its row records on stable storage.
   */
  lemma EveryMessageIsKept(w: World, events: seq<Event>, m: Id)
    requires w.options.sizes.Valid() && m in Run(w, events).relay.store.db.messages
    ensures Kept(w, Run(w, events), m)
  {
    BlobIsThere(w, events, m);
    RunsMatch(w, events);
    var s := Run(w, events);
    assert Durability.RowHolds(s.files, s.relay.store.db.messages[m].blob, w.sha);
  }

  lemma {:induction false} RelayStepsExtend(w: World, events: seq<Event>, more: seq<Event>)
    requires w.options.sizes.Valid()
    ensures RelaySteps(w, events) <= RelaySteps(w, events + more)
    decreases |more|
  {
    if more == [] {
      assert events + more == events;
    } else {
      var all := events + more;
      RelayStepsExtend(w, events, more[..|more| - 1]);
      assert all[..|all| - 1] == events + more[..|more| - 1] && all != [];
      assert RelaySteps(w, all[..|all| - 1]) <= RelaySteps(w, all);
    }
  }

  lemma AcceptedSteps(w: World, events: seq<Event>, step: RelaySystem.Step, more: seq<Event>)
    returns (tail: seq<RelaySystem.Step>)
    requires w.options.sizes.Valid() && !step.Crash? && Offered(w, Run(w, events), step)
    ensures RelaySteps(w, events + [Relaying(step)] + more) == RelaySteps(w, events) + [step] + tail
  {
    var one := events + [Relaying(step)];
    assert one[..|one| - 1] == events && one[|one| - 1] == Relaying(step);
    assert RelaySteps(w, one) == RelaySteps(w, events) + [step];
    RelayStepsExtend(w, one, more);
    tail := RelaySteps(w, one + more)[|RelaySteps(w, one)|..];
  }

  /**
   * Once an acceptance was applied, whether or not its answer arrived, its message is on record with the asked
   * size and hash after any further events, crashes included, and its contents are on stable storage.
   */
  lemma AcceptedMailIsKept(w: World, events: seq<Event>, step: RelaySystem.Step, more: seq<Event>)
    requires w.options.sizes.Valid() && step.Accept? && step.fate != LostUnknown && Offered(w, Run(w, events), step)
    requires Acceptance.AcceptTx(Run(w, events).relay.store.db, step.q, step.p, step.ids, step.r).Ok?
    ensures var m := Acceptance.AcceptTx(Run(w, events).relay.store.db, step.q, step.p, step.ids,
                                         step.r).value.1.message;
            var s := Run(w, events + [Relaying(step)] + more);
            && Kept(w, s, m)
            && Replay.Recorded(s.relay.store.db, step.q.plan.operation, m, Acceptance.Asked(step.q, step.p))
            && |s.files.disk.data[s.relay.store.db.messages[m].blob]| == step.p.size
            && w.sha(s.files.disk.data[s.relay.store.db.messages[m].blob]) == step.p.hash
  {
    var all := events + [Relaying(step)] + more;
    var m := Acceptance.AcceptTx(Run(w, events).relay.store.db, step.q, step.p, step.ids, step.r).value.1.message;
    HalvesAreRuns(w, events);
    HalvesAreRuns(w, all);
    var tail := AcceptedSteps(w, events, step, more);
    Replay.AcceptStands(w.policy, RelaySteps(w, events), step, tail);
    EveryMessageIsKept(w, all, m);
  }
}
