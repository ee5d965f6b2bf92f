/**
 * Files before rows: staging, sync, rename, directory sync, row commit and garbage collection over
 * crashes at any point (crates/store/src/blob.rs, crates/store/src/maintenance.rs).
 */
module Durability {
  import opened Wrappers
  import opened Framing
  import opened Tables
  import Staging

  /** How far `prepare` has come with a stage. */
  datatype Point = Writing | Flushed | FileSynced | Renamed | Durable

  /** A live stage or prepared message; `all` is what its owner has appended. */
  datatype Work = Work(stage: Staging.Stage, point: Point, all: seq<Byte>)

  /**
   * `data` is what a read of the file returns now, `stable` what is on stable storage; `blobs` and
   * `staging` are the names seen now, `stableBlobs` the blob names on stable storage.
   */
  datatype Disk = Disk(data: map<Id, seq<Byte>>, stable: map<Id, seq<Byte>>,
                       staging: set<Id>, blobs: set<Id>, stableBlobs: set<Id>)

  datatype Row = Row(size: nat, hash: string)

  /** Committed blob rows survive crashes; owners, reservations and lease guards do not. */
  datatype Sys = Sys(disk: Disk, rows: map<Id, Row>, works: map<Id, Work>, budget: Staging.Budget, leases: nat)

  datatype Options = Options(sizes: Staging.Sizes, temporary: nat)

  const NEW := Sys(Disk(map[], map[], {}, {}, {}), map[], map[], Staging.Budget(0, map[]), 0)

  datatype Step =
    | Create(id: Id, reserve: nat, space: Staging.Space)
    | Append(id: Id, bytes: seq<Byte>, fault: Option<Staging.Fault>)
    | Flush(id: Id, torn: Option<nat>)
    | SyncFile(id: Id)
    | Rename(id: Id)
    | SyncBlobs(id: Id)
    | Drop(id: Id)
    | Commit(id: Id, fate: Fate)
    | Leases(n: nat)
    | CollectStaging(id: Id)
    | CollectBlob(id: Id, synced: bool)
    | Crash(kept: set<Id>, garbage: map<Id, seq<Byte>>)

  function Put(s: Sys, id: Id, w: Work, disk: Disk): Sys { s.(works := s.works[id := w], disk := disk) }

  function Forget(s: Sys, id: Id): Sys {
    s.(works := s.works - {id}, budget := Staging.Release(s.budget, id))
  }

  /** The steps of one stage, in the order `append` and `prepare` take them. */
  function Working(s: Sys, step: Step, w: Work, o: Options): Sys
    requires o.sizes.Valid()
  {
    var d := s.disk;
    match step
    case Append(id, bytes, fault) =>
      if w.point != Writing then s
      else
        var (stage, r) := Staging.Append(w.stage, bytes, fault, o.sizes);
        Put(s, id, Work(stage, Writing, if r.Ok? then w.all + bytes else w.all), d.(data := d.data[id := stage.file]))
    case Flush(id, torn) =>
      if w.point != Writing then s
      else
        var (stage, r) := Staging.Prepare(w.stage, torn);
        Put(s, id, Work(stage, if r.Ok? then Flushed else Writing, w.all), d.(data := d.data[id := stage.file]))
    case SyncFile(id) =>
      if w.point != Flushed || id !in d.data then s
      else Put(s, id, w.(point := FileSynced), d.(stable := d.stable[id := d.data[id]]))
    case Rename(id) =>
      if w.point != FileSynced || id in d.blobs then s
      else Put(s, id, w.(point := Renamed), d.(staging := d.staging - {id}, blobs := d.blobs + {id}))
    case SyncBlobs(id) =>
      if w.point != Renamed then s else Put(s, id, w.(point := Durable), d.(stableBlobs := d.blobs))
    case Drop(id) =>
      Forget(s.(disk := if w.point.Writing? || w.point.Flushed? || w.point.FileSynced?
                        then d.(staging := d.staging - {id}) else d), id)
    case _ => s
  }

  /** `require_idle`. */
  predicate Idle(s: Sys) { s.budget.reserved == 0 && s.leases == 0 }

  /** Unsynced names may be lost or kept, unsynced data may be anything; nothing in memory survives. */
  function Crashed(s: Sys, kept: set<Id>, garbage: map<Id, seq<Byte>>): Sys {
    var d := s.disk;
    var blobs := set id | id in d.blobs + d.stableBlobs && ((id in d.blobs && id in d.stableBlobs) || id in kept);
    var data := map id | id in d.data
                  :: if id in d.stable then d.stable[id] else if id in garbage then garbage[id] else [];
    Sys(Disk(data, d.stable, d.staging, blobs, blobs), s.rows, map[], Staging.Budget(0, map[]), 0)
  }

  function Do(s: Sys, step: Step, o: Options, sha: seq<Byte> -> string): Sys
    requires o.sizes.Valid()
  {
    var d := s.disk;
    match step
    case Create(id, reserve, space) =>
      var budget := Staging.Reserve(s.budget, id, reserve, o.temporary, space);
      if id in d.data || id in s.works || id in s.rows || reserve == 0 || budget.None? then s
      else s.(works := s.works[id := Work(Staging.EMPTY_STAGE, Writing, [])], budget := budget.value,
              disk := d.(data := d.data[id := []], staging := d.staging + {id}))
    case Commit(id, fate) =>
      if id !in s.works || s.works[id].point != Durable || id in s.rows then s
      else
        var w := s.works[id];
        var row := Row(w.stage.size, sha(w.stage.hashed));
        Forget(s.(rows := if fate.LostUnknown? then s.rows else s.rows[id := row]), id)
    case Leases(n) => s.(leases := n)
    case CollectStaging(id) => if !Idle(s) then s else s.(disk := d.(staging := d.staging - {id}))
    case CollectBlob(id, synced) =>
      if !Idle(s) || id in s.rows then s
      else
        var blobs := d.blobs - {id};
        s.(disk := d.(blobs := blobs, stableBlobs := if synced then blobs else d.stableBlobs))
    case Crash(kept, garbage) => Crashed(s, kept, garbage)
    case _ => if step.id in s.works then Working(s, step, s.works[step.id], o) else s
  }

  function Run(steps: seq<Step>, o: Options, sha: seq<Byte> -> string): Sys
    requires o.sizes.Valid()
  {
    if steps == [] then NEW else Do(Run(steps[..|steps| - 1], o, sha), steps[|steps| - 1], o, sha)
  }

  // ---------------------------------------------------------------- the invariant

  /** The file is there, now and after any crash, with these contents. */
  predicate OnDisk(d: Disk, id: Id) {
    && id in d.data && id in d.stable && d.stable[id] == d.data[id]
    && id in d.blobs && id in d.stableBlobs
  }

  /** What the row promises is on stable storage. */
  predicate RowHolds(s: Sys, id: Id, sha: seq<Byte> -> string)
    requires id in s.rows
  {
    OnDisk(s.disk, id) && |s.disk.data[id]| == s.rows[id].size && sha(s.disk.data[id]) == s.rows[id].hash
  }

  /** The stage matches its file, and each point of `prepare` has made good what it says. */
  predicate WorkHolds(s: Sys, id: Id, o: Options)
    requires id in s.works
  {
    var w, d := s.works[id], s.disk;
    && id !in s.rows && id in d.data && d.data[id] == w.stage.file
    && Staging.Accounts(w.stage, w.all, o.sizes)
    && (!w.point.Writing? ==> !w.stage.poisoned && w.stage.buffer == [])
    && (w.point.FileSynced? || w.point.Renamed? || w.point.Durable? ==> id in d.stable && d.stable[id] == d.data[id])
    && (w.point.Renamed? || w.point.Durable? ==> id in d.blobs)
    && (w.point.Durable? ==> id in d.stableBlobs)
  }

  ghost predicate Reserved(s: Sys) {
    && s.budget.live.Keys == s.works.Keys
    && s.budget.reserved == Staging.Total(s.budget.live)
    && forall id :: id in s.budget.live ==> s.budget.live[id] >= 1
  }

  ghost predicate Safe(s: Sys, o: Options, sha: seq<Byte> -> string) {
    && (forall id :: id in s.rows ==> RowHolds(s, id, sha))
    && (forall id :: id in s.works ==> WorkHolds(s, id, o))
    && Reserved(s)
  }

  // ---------------------------------------------------------------- every step keeps it

  lemma NothingReserved(s: Sys)
    requires Reserved(s) && s.budget.reserved == 0
    ensures s.works == map[]
  {
    forall id | id in s.works ensures s.budget.reserved >= 1 {
      Staging.TotalSplits(s.budget.live, id);
    }
    assert s.works.Keys == {};
  }

  lemma Released(s: Sys, id: Id)
    requires Reserved(s) && id in s.works
    ensures Reserved(Forget(s, id))
  {
    Staging.TotalSplits(s.budget.live, id);
    assert (s.budget.live - {id}).Keys == s.budget.live.Keys - {id};
    assert (s.works - {id}).Keys == s.works.Keys - {id};
  }

  /** Rows and other works do not notice a step of the work `id`. */
  ghost predicate Apart(d: Disk, next: Disk, id: Id) {
    && (forall x :: x != id ==> (x in next.data <==> x in d.data) && (x in d.data ==> next.data[x] == d.data[x]))
    && (forall x :: x != id ==>
        (x in next.stable <==> x in d.stable) && (x in d.stable ==> next.stable[x] == d.stable[x]))
    && (forall x :: x != id ==> (x in next.blobs <==> x in d.blobs))
    && (forall x :: x != id && x in d.blobs ==> (x in d.stableBlobs ==> x in next.stableBlobs))
  }

  lemma OthersHold(s: Sys, next: Sys, id: Id, o: Options, sha: seq<Byte> -> string)
    requires Safe(s, o, sha) && next.rows == s.rows && id !in s.rows && Apart(s.disk, next.disk, id)
    requires forall x :: x in next.works && x != id ==> x in s.works && next.works[x] == s.works[x]
    requires id in next.works ==> WorkHolds(next, id, o)
    requires Reserved(next)
    ensures Safe(next, o, sha)
  {
    forall x | x in next.rows ensures RowHolds(next, x, sha) {
      assert RowHolds(s, x, sha);
    }
    forall x | x in next.works && x != id ensures WorkHolds(next, x, o) {
      assert WorkHolds(s, x, o);
    }
  }

  lemma AppendSafe(s: Sys, step: Step, o: Options, sha: seq<Byte> -> string)
    requires o.sizes.Valid() && Safe(s, o, sha) && (step.Append? || step.Flush?) && step.id in s.works
    ensures Safe(Working(s, step, s.works[step.id], o), o, sha)
  {
    var id := step.id;
    var w, next := s.works[id], Working(s, step, s.works[id], o);
    assert WorkHolds(s, id, o);
    if w.point == Writing {
      if step.Append? {
        Staging.AppendKeeps(w.stage, step.bytes, step.fault, o.sizes, w.all);
        Staging.AppendOutcome(w.stage, step.bytes, step.fault, o.sizes);
      }
      assert WorkHolds(next, id, o) by {
        AppendHolds(s, step, o);
      }
      OthersHold(s, next, id, o, sha);
    }
  }

  /** The stage after an append or the last flush still accounts for what was appended. */
  lemma AppendHolds(s: Sys, step: Step, o: Options)
    requires o.sizes.Valid() && (step.Append? || step.Flush?) && step.id in s.works && WorkHolds(s, step.id, o)
    requires s.works[step.id].point == Writing
    ensures var next := Working(s, step, s.works[step.id], o); step.id in next.works && WorkHolds(next, step.id, o)
  {
    var w := s.works[step.id];
    if step.Append? {
      Staging.AppendKeeps(w.stage, step.bytes, step.fault, o.sizes, w.all);
      Staging.AppendOutcome(w.stage, step.bytes, step.fault, o.sizes);
    } else {
      FlushKeeps(w.stage, step.torn, o.sizes, w.all);
    }
  }

  lemma FlushKeeps(s: Staging.Stage, torn: Option<nat>, sizes: Staging.Sizes, all: seq<Byte>)
    requires sizes.Valid() && Staging.Accounts(s, all, sizes)
    ensures var (s', r) := Staging.Prepare(s, torn);
            Staging.Accounts(s', all, sizes) && (r.Ok? ==> !s'.poisoned && s'.buffer == [])
  {
    assert s.file + s.buffer + [] == s.file + s.buffer;
  }

  /** Each point of `prepare` makes good what it says. */
  lemma PointHolds(s: Sys, step: Step, o: Options)
    requires o.sizes.Valid() && (step.SyncFile? || step.Rename? || step.SyncBlobs?) && step.id in s.works
             && WorkHolds(s, step.id, o)
    ensures var next := Working(s, step, s.works[step.id], o); step.id in next.works && WorkHolds(next, step.id, o)
  {
  }

  lemma PointApart(s: Sys, step: Step, o: Options)
    requires o.sizes.Valid() && (step.SyncFile? || step.Rename? || step.SyncBlobs?) && step.id in s.works
    ensures var next := Working(s, step, s.works[step.id], o);
            && next.rows == s.rows && next.budget == s.budget && Apart(s.disk, next.disk, step.id)
            && next.works.Keys == s.works.Keys
            && forall x :: x in s.works && x != step.id ==> next.works[x] == s.works[x]
  {
  }

  lemma PrepareSafe(s: Sys, step: Step, o: Options, sha: seq<Byte> -> string)
    requires o.sizes.Valid() && Safe(s, o, sha) && (step.SyncFile? || step.Rename? || step.SyncBlobs?)
             && step.id in s.works
    ensures Safe(Working(s, step, s.works[step.id], o), o, sha)
  {
    assert WorkHolds(s, step.id, o);
    PointHolds(s, step, o);
    PointApart(s, step, o);
    OthersHold(s, Working(s, step, s.works[step.id], o), step.id, o, sha);
  }

  lemma DropSafe(s: Sys, step: Step, o: Options, sha: seq<Byte> -> string)
    requires o.sizes.Valid() && Safe(s, o, sha) && step.Drop? && step.id in s.works
    ensures Safe(Working(s, step, s.works[step.id], o), o, sha)
  {
    var id := step.id;
    var next := Working(s, step, s.works[id], o);
    assert WorkHolds(s, id, o);
    Released(s, id);
    OthersHold(s, next, id, o, sha);
  }

  /** What `create` does when it is let in. */
  lemma CreatedIs(s: Sys, step: Step, o: Options, sha: seq<Byte> -> string)
    requires o.sizes.Valid() && step.Create? && Do(s, step, o, sha) != s
    ensures var id, next := step.id, Do(s, step, o, sha);
            && id !in s.works && id !in s.rows && next.rows == s.rows && Apart(s.disk, next.disk, id)
            && next.works == s.works[id := Work(Staging.EMPTY_STAGE, Writing, [])] && WorkHolds(next, id, o)
            && id !in s.budget.live && step.reserve >= 1
            && next.budget == Staging.Budget(s.budget.reserved + step.reserve, s.budget.live[id := step.reserve])
  {
  }

  lemma CreateSafe(s: Sys, step: Step, o: Options, sha: seq<Byte> -> string)
    requires o.sizes.Valid() && Safe(s, o, sha) && step.Create?
    ensures Safe(Do(s, step, o, sha), o, sha)
  {
    var id, next := step.id, Do(s, step, o, sha);
    if next != s {
      CreatedIs(s, step, o, sha);
      Staging.TotalSplits(next.budget.live, id);
      assert next.budget.live - {id} == s.budget.live;
      OthersHold(s, next, id, o, sha);
    }
  }

  /** A row is committed only for a file that is whole and on stable storage under its name. */
  lemma CommitSafe(s: Sys, step: Step, o: Options, sha: seq<Byte> -> string)
    requires o.sizes.Valid() && Safe(s, o, sha) && step.Commit?
    ensures Safe(Do(s, step, o, sha), o, sha)
  {
    var id, next := step.id, Do(s, step, o, sha);
    if next != s {
      assert WorkHolds(s, id, o);
      Released(s, id);
      forall x | x in next.rows ensures RowHolds(next, x, sha) {
        if x in s.rows {
          assert RowHolds(s, x, sha);
        } else {
          assert s.works[id].stage.file + [] == s.works[id].stage.file;
        }
      }
      forall x | x in next.works ensures WorkHolds(next, x, o) {
        assert WorkHolds(s, x, o);
      }
    }
  }

  /** Collection runs only when nothing is in flight, and never takes a file a row names. */
  lemma CollectSafe(s: Sys, step: Step, o: Options, sha: seq<Byte> -> string)
    requires o.sizes.Valid() && Safe(s, o, sha) && (step.CollectStaging? || step.CollectBlob?)
    ensures Safe(Do(s, step, o, sha), o, sha)
  {
    var next := Do(s, step, o, sha);
    if Idle(s) {
      NothingReserved(s);
      forall x | x in next.rows ensures RowHolds(next, x, sha) {
        assert RowHolds(s, x, sha);
      }
    }
  }

  lemma CrashSafe(s: Sys, step: Step, o: Options, sha: seq<Byte> -> string)
    requires o.sizes.Valid() && Safe(s, o, sha) && step.Crash?
    ensures Safe(Do(s, step, o, sha), o, sha)
  {
    var next := Do(s, step, o, sha);
    forall x | x in next.rows ensures RowHolds(next, x, sha) {
      assert RowHolds(s, x, sha);
    }
  }

  lemma StepSafe(s: Sys, step: Step, o: Options, sha: seq<Byte> -> string)
    requires o.sizes.Valid() && Safe(s, o, sha)
    ensures Safe(Do(s, step, o, sha), o, sha)
  {
    if step.Create? {
      CreateSafe(s, step, o, sha);
    } else if step.Commit? {
      CommitSafe(s, step, o, sha);
    } else if step.CollectStaging? || step.CollectBlob? {
      CollectSafe(s, step, o, sha);
    } else if step.Crash? {
      CrashSafe(s, step, o, sha);
    } else if step.Leases? {
      LeasesSafe(s, step.n, o, sha);
    } else if step.id in s.works {
      if step.Append? || step.Flush? {
        AppendSafe(s, step, o, sha);
      } else if step.Drop? {
        DropSafe(s, step, o, sha);
      } else {
        PrepareSafe(s, step, o, sha);
      }
    }
  }

  lemma LeasesSafe(s: Sys, n: nat, o: Options, sha: seq<Byte> -> string)
    requires Safe(s, o, sha)
    ensures Safe(s.(leases := n), o, sha)
  {
    forall x | x in s.rows ensures RowHolds(s.(leases := n), x, sha) {
      assert RowHolds(s, x, sha);
    }
    forall x | x in s.works ensures WorkHolds(s.(leases := n), x, o) {
      assert WorkHolds(s, x, o);
    }
  }

  lemma {:induction false} RunsAreSafe(steps: seq<Step>, o: Options, sha: seq<Byte> -> string)
    requires o.sizes.Valid()
    ensures Safe(Run(steps, o, sha), o, sha)
  {
    if steps != [] {
      RunsAreSafe(steps[..|steps| - 1], o, sha);
      StepSafe(Run(steps[..|steps| - 1], o, sha), steps[|steps| - 1], o, sha);
    }
  }

  /**
   * Whatever is written, cancelled, collected or lost in a crash, and wherever: every committed row
   * names a file on stable storage with the recorded length and hash.
   */
  lemma RowsNameDurableFiles(steps: seq<Step>, o: Options, sha: seq<Byte> -> string, id: Id)
    requires o.sizes.Valid() && id in Run(steps, o, sha).rows
    ensures RowHolds(Run(steps, o, sha), id, sha)
  {
    RunsAreSafe(steps, o, sha);
  }

  /** While a stage or prepared message is alive, collection does nothing. */
  lemma CollectionWaits(steps: seq<Step>, o: Options, sha: seq<Byte> -> string, step: Step)
    requires o.sizes.Valid() && Run(steps, o, sha).works != map[] && (step.CollectStaging? || step.CollectBlob?)
    ensures Do(Run(steps, o, sha), step, o, sha) == Run(steps, o, sha)
  {
    RunsAreSafe(steps, o, sha);
    var s := Run(steps, o, sha);
    if s.budget.reserved == 0 {
      NothingReserved(s);
    }
  }
}
