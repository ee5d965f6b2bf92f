/** The garbage collection loop (Store::gc in crates/store/src/maintenance.rs) on top of the durable files. */
module Maintenance {
  import opened Wrappers
  import opened Framing
  import opened Tables
  import opened Durability

  /** A directory entry as the scan finds it. */
  datatype Entry = Entry(id: Id, modified: int, size: nat)

  datatype GcOptions = GcOptions(apply: bool, minAge: nat, limit: nat)
  {
    predicate Valid() { 1 <= limit <= 1000 && minAge <= I64_MAX / 1000 }
  }

  datatype GcReport = GcReport(examined: nat, candidates: nat, deleted: nat, deletedBytes: nat, skippedRecent: nat,
                               more: bool)

  const BLANK := GcReport(0, 0, 0, 0, 0, false)

  datatype Directory = StagingDir | BlobDir

  predicate Candidate(e: Entry, dir: Directory, rows: map<Id, Row>, cutoff: int) {
    (dir == BlobDir ==> e.id !in rows) && e.modified <= cutoff
  }

  /** The candidates among the entries, in the order they are found. */
  function Candidates(entries: seq<Entry>, dir: Directory, rows: map<Id, Row>, cutoff: int): seq<Entry> {
    if entries == [] then []
    else
      var before, e := Candidates(entries[..|entries| - 1], dir, rows, cutoff), entries[|entries| - 1];
      if Candidate(e, dir, rows, cutoff) then before + [e] else before
  }

  lemma {:induction false} CandidatesAre(entries: seq<Entry>, dir: Directory, rows: map<Id, Row>, cutoff: int)
    ensures forall e :: e in Candidates(entries, dir, rows, cutoff) ==> e in entries && Candidate(e, dir, rows, cutoff)
  {
    if entries != [] {
      CandidatesAre(entries[..|entries| - 1], dir, rows, cutoff);
    }
  }

  /** Unlink one candidate and sync its directory. */
  function Unlink(s: Sys, e: Entry, dir: Directory): Sys {
    var d := s.disk;
    if dir == StagingDir then s.(disk := d.(staging := d.staging - {e.id}))
    else s.(disk := d.(blobs := d.blobs - {e.id}, stableBlobs := d.blobs - {e.id}))
  }

  function Removed(s: Sys, victims: seq<Entry>, dir: Directory): Sys {
    if victims == [] then s else Unlink(Removed(s, victims[..|victims| - 1], dir), victims[|victims| - 1], dir)
  }

  function Outcome(s: Sys, victims: seq<Entry>, dir: Directory, apply: bool): Sys {
    if apply then Removed(s, victims, dir) else s
  }

  function Bytes(victims: seq<Entry>): nat {
    if victims == [] then 0 else Bytes(victims[..|victims| - 1]) + victims[|victims| - 1].size
  }

  /** On an idle store, unlinking a candidate is the collecting step of the file protocol. */
  lemma UnlinkIsStep(s: Sys, e: Entry, dir: Directory, o: Options, sha: seq<Byte> -> string)
    requires o.sizes.Valid() && Idle(s) && (dir == BlobDir ==> e.id !in s.rows)
    ensures Unlink(s, e, dir)
            == Do(s, if dir == StagingDir then CollectStaging(e.id) else CollectBlob(e.id, true), o, sha)
  {
  }

  lemma {:induction false} RemovedIs(s: Sys, victims: seq<Entry>, dir: Directory)
    ensures Removed(s, victims, dir) == s.(disk := Removed(s, victims, dir).disk)
  {
    if victims != [] {
      RemovedIs(s, victims[..|victims| - 1], dir);
    }
  }

  lemma {:induction false} RemovedSafe(s: Sys, victims: seq<Entry>, dir: Directory, o: Options,
                                       sha: seq<Byte> -> string)
    requires o.sizes.Valid() && Safe(s, o, sha) && Idle(s)
    requires dir == BlobDir ==> forall e :: e in victims ==> e.id !in s.rows
    ensures Safe(Removed(s, victims, dir), o, sha)
  {
    if victims != [] {
      var n := |victims| - 1;
      var mid, e := Removed(s, victims[..n], dir), victims[n];
      RemovedSafe(s, victims[..n], dir, o, sha);
      RemovedIs(s, victims[..n], dir);
      UnlinkIsStep(mid, e, dir, o, sha);
      StepSafe(mid, if dir == StagingDir then CollectStaging(e.id) else CollectBlob(e.id, true), o, sha);
    }
  }

  lemma RemovedStep(s: Sys, victims: seq<Entry>, e: Entry, dir: Directory)
    ensures Removed(s, victims + [e], dir) == Unlink(Removed(s, victims, dir), e, dir)
    ensures Bytes(victims + [e]) == Bytes(victims) + e.size
  {
    assert (victims + [e])[..|victims|] == victims;
  }

  /** The part of a candidate list the limit leaves room for. */
  function Allowed(all: seq<Entry>, room: nat): seq<Entry> { all[..Min(|all|, room)] }

  lemma CandidatesStep(entries: seq<Entry>, i: nat, dir: Directory, rows: map<Id, Row>, cutoff: int)
    requires i < |entries|
    ensures Candidates(entries[..i + 1], dir, rows, cutoff)
            == Candidates(entries[..i], dir, rows, cutoff)
               + if Candidate(entries[i], dir, rows, cutoff) then [entries[i]] else []
  {
    assert entries[..i + 1][..i] == entries[..i];
  }

  lemma {:induction false} CandidatesGrow(entries: seq<Entry>, i: nat, dir: Directory, rows: map<Id, Row>, cutoff: int)
    requires i <= |entries|
    ensures Candidates(entries[..i], dir, rows, cutoff) <= Candidates(entries, dir, rows, cutoff)
    decreases |entries| - i
  {
    if i == |entries| {
      assert entries[..i] == entries;
    } else {
      CandidatesStep(entries, i, dir, rows, cutoff);
      CandidatesGrow(entries, i + 1, dir, rows, cutoff);
    }
  }

  /** What a report says once `taken` were dealt with. */
  predicate Tallied(before: GcReport, report: GcReport, taken: seq<Entry>, apply: bool) {
    && report.candidates == before.candidates + |taken|
    && report.deleted == before.deleted + (if apply then |taken| else 0)
    && report.deletedBytes == before.deletedBytes + (if apply then Bytes(taken) else 0)
  }

  /** One directory entry. */
  method Visit(s: Sys, e: Entry, dir: Directory, cutoff: int, g: GcOptions, before: GcReport)
    returns (s': Sys, report: GcReport)
    requires !before.more && before.candidates <= g.limit
    ensures var taken := if Candidate(e, dir, s.rows, cutoff) && before.candidates < g.limit then [e] else [];
            && Tallied(before, report, taken, g.apply)
            && s' == (if g.apply && taken != [] then Unlink(s, e, dir) else s)
            && (report.more <==> Candidate(e, dir, s.rows, cutoff) && before.candidates == g.limit)
  {
    s', report := s, before.(examined := before.examined + 1);
    if dir == BlobDir && e.id in s.rows {
      return;
    }
    if e.modified > cutoff {
      report := report.(skippedRecent := report.skippedRecent + 1);
    } else if report.candidates == g.limit {
      report := report.(more := true);
    } else {
      report := report.(candidates := report.candidates + 1);
      if g.apply {
        s' := Unlink(s, e, dir);
        report := report.(deleted := report.deleted + 1, deletedBytes := report.deletedBytes + e.size);
      }
    }
  }

  /** What the scan has done after some entries, `all` being the candidates among them. */
  ghost predicate Scanned(s: Sys, s': Sys, before: GcReport, report: GcReport, all: seq<Entry>, dir: Directory,
                          apply: bool) {
    Tallied(before, report, all, apply) && s' == Outcome(s, all, dir, apply) && s'.rows == s.rows
  }

  lemma ScannedOne(s: Sys, s1: Sys, s2: Sys, before: GcReport, r1: GcReport, r2: GcReport, all: seq<Entry>, e: Entry,
                   dir: Directory, apply: bool)
    requires Scanned(s, s1, before, r1, all, dir, apply) && Tallied(r1, r2, [e], apply)
    requires s2 == if apply then Unlink(s1, e, dir) else s1
    ensures Scanned(s, s2, before, r2, all + [e], dir, apply)
  {
    RemovedStep(s, all, e, dir);
    assert [e][..0] == [] && Bytes([e]) == Bytes([]) + e.size;
  }

  lemma ScannedNone(s: Sys, s1: Sys, before: GcReport, r1: GcReport, r2: GcReport, all: seq<Entry>, dir: Directory,
                    apply: bool)
    requires Scanned(s, s1, before, r1, all, dir, apply) && Tallied(r1, r2, [], apply)
    ensures Scanned(s, s1, before, r2, all, dir, apply)
  {
  }

  /** One directory: candidates up to the limit, removed one by one when the run is applied. */
  method CollectDirectory(s: Sys, entries: seq<Entry>, dir: Directory, cutoff: int, g: GcOptions, before: GcReport)
    returns (s': Sys, report: GcReport)
    requires before.candidates <= g.limit && !before.more
    ensures var all := Candidates(entries, dir, s.rows, cutoff);
            var taken := Allowed(all, g.limit - before.candidates);
            && Scanned(s, s', before, report, taken, dir, g.apply)
            && (report.more <==> |all| > g.limit - before.candidates)
  {
    s', report := s, before;
    ghost var room, all := g.limit - before.candidates, [];
    for i := 0 to |entries|
      invariant all == Candidates(entries[..i], dir, s.rows, cutoff) && |all| <= room && !report.more
      invariant Scanned(s, s', before, report, all, dir, g.apply)
    {
      CandidatesStep(entries, i, dir, s.rows, cutoff);
      ghost var s1, r1 := s', report;
      s', report := Visit(s', entries[i], dir, cutoff, g, report);
      if report.candidates == r1.candidates {
        ScannedNone(s, s', before, r1, report, all, dir, g.apply);
      }
      if report.more {
        CandidatesGrow(entries, i + 1, dir, s.rows, cutoff);
        Full(all, entries[i], Candidates(entries, dir, s.rows, cutoff), room);
        return;
      }
      if Candidate(entries[i], dir, s.rows, cutoff) {
        ScannedOne(s, s1, s', before, r1, report, all, entries[i], dir, g.apply);
        all := all + [entries[i]];
      }
    }
    assert entries[..|entries|] == entries;
    assert Allowed(all, room) == all;
  }

  lemma Full(all: seq<Entry>, e: Entry, whole: seq<Entry>, room: nat)
    requires |all| == room && all + [e] <= whole
    ensures |whole| > room && Allowed(whole, room) == all
  {
  }

  datatype GcError = Busy | BadOptions | Unhealthy

  function Cutoff(now: int, g: GcOptions): int { now - g.minAge * 1000 }

  /** What a run takes: old staging files first, then old blobs without a row while there is room. */
  function OldStages(s: Sys, staging: seq<Entry>, now: int, g: GcOptions): seq<Entry> {
    Allowed(Candidates(staging, StagingDir, s.rows, Cutoff(now, g)), g.limit)
  }

  function Orphans(s: Sys, staging: seq<Entry>, blobs: seq<Entry>, now: int, g: GcOptions): seq<Entry> {
    if |Candidates(staging, StagingDir, s.rows, Cutoff(now, g))| > g.limit then []
    else Allowed(Candidates(blobs, BlobDir, s.rows, Cutoff(now, g)), g.limit - |OldStages(s, staging, now, g)|)
  }

  /** `gc`: refuses to run unless idle and healthy; otherwise takes exactly the specified files. */
  method Collect(s: Sys, staging: seq<Entry>, blobs: seq<Entry>, healthy: bool, now: int, g: GcOptions)
    returns (s': Sys, r: Result<GcReport, GcError>)
    ensures r.Ok? <==> Idle(s) && g.Valid() && healthy
    ensures r.Err? ==> s' == s
    ensures r.Ok? ==>
              var first, second := OldStages(s, staging, now, g), Orphans(s, staging, blobs, now, g);
              && s' == Outcome(Outcome(s, first, StagingDir, g.apply), second, BlobDir, g.apply)
              && Tallied(BLANK, r.value, first + second, g.apply) && r.value.candidates <= g.limit
  {
    s' := s;
    if !Idle(s) {
      return s, Err(Busy);
    }
    if !g.Valid() {
      return s, Err(BadOptions);
    }
    if !healthy {
      return s, Err(Unhealthy);
    }
    var report;
    s', report := CollectDirectory(s, staging, StagingDir, Cutoff(now, g), g, BLANK);
    ghost var first := OldStages(s, staging, now, g);
    RemovedIs(s, first, StagingDir);
    assert first + [] == first;
    if !report.more {
      s', report := CollectDirectory(s', blobs, BlobDir, Cutoff(now, g), g, report);
      BytesConcat(first, Orphans(s, staging, blobs, now, g));
    }
    return s', Ok(report);
  }

  lemma {:induction false} BytesConcat(a: seq<Entry>, b: seq<Entry>)
    ensures Bytes(a + b) == Bytes(a) + Bytes(b)
  {
    if b == [] {
      assert a + b == a;
    } else {
      BytesConcat(a, b[..|b| - 1]);
      assert (a + b)[..|a + b| - 1] == a + b[..|b| - 1];
    }
  }

  /** No collection ever breaks a committed row. */
  lemma CollectionIsSafe(s: Sys, staging: seq<Entry>, blobs: seq<Entry>, now: int, g: GcOptions, o: Options,
                         sha: seq<Byte> -> string)
    requires o.sizes.Valid() && Safe(s, o, sha) && Idle(s)
    ensures var s' := Outcome(Outcome(s, OldStages(s, staging, now, g), StagingDir, g.apply),
                              Orphans(s, staging, blobs, now, g), BlobDir, g.apply);
            Safe(s', o, sha) && s'.rows == s.rows
  {
    var first, second := OldStages(s, staging, now, g), Orphans(s, staging, blobs, now, g);
    RemovedSafe(s, first, StagingDir, o, sha);
    RemovedIs(s, first, StagingDir);
    var mid := Outcome(s, first, StagingDir, g.apply);
    CandidatesAre(blobs, BlobDir, s.rows, Cutoff(now, g));
    assert forall e :: e in second ==> e in Candidates(blobs, BlobDir, s.rows, Cutoff(now, g));
    RemovedSafe(mid, second, BlobDir, o, sha);
    RemovedIs(mid, second, BlobDir);
  }

  lemma {:induction false} CandidatesAll(entries: seq<Entry>, dir: Directory, rows: map<Id, Row>, cutoff: int, e: Entry)
    requires e in entries && e.modified <= cutoff && (dir == BlobDir ==> e.id !in rows)
    ensures e in Candidates(entries, dir, rows, cutoff)
  {
    var n := |entries| - 1;
    if e != entries[n] {
      var i :| 0 <= i < |entries| && entries[i] == e;
      assert e == entries[..n][i];
      CandidatesAll(entries[..n], dir, rows, cutoff, e);
    }
  }

  /**
   * What is taken has rested for the whole minimum age, and no row names a blob that is taken; a run that does not
   * use up its limit takes every such file of both directories.
   */
  lemma CollectedAreOld(s: Sys, staging: seq<Entry>, blobs: seq<Entry>, now: int, g: GcOptions, e: Entry)
    ensures e in OldStages(s, staging, now, g) ==> e in staging && e.modified + 1000 * g.minAge <= now
    ensures e in Orphans(s, staging, blobs, now, g) ==>
              e in blobs && e.modified + 1000 * g.minAge <= now && e.id !in s.rows
    ensures |OldStages(s, staging, now, g)| + |Orphans(s, staging, blobs, now, g)| < g.limit
            && e.modified + 1000 * g.minAge <= now ==>
              && (e in staging ==> e in OldStages(s, staging, now, g))
              && (e in blobs && e.id !in s.rows ==> e in Orphans(s, staging, blobs, now, g))
  {
    var cutoff := now - 1000 * g.minAge;
    CandidatesAre(staging, StagingDir, s.rows, cutoff);
    CandidatesAre(blobs, BlobDir, s.rows, cutoff);
    if e.modified <= cutoff {
      if e in staging {
        CandidatesAll(staging, StagingDir, s.rows, cutoff, e);
      }
      if e in blobs && e.id !in s.rows {
        CandidatesAll(blobs, BlobDir, s.rows, cutoff, e);
      }
    }
  }
}
