/** The steps of one attempt keep the invariant of the relay. */
module AttemptRuns {
  import opened Wrappers
  import opened Tables
  import opened Moves
  import opened Transactions
  import opened RelaySystem
  import Clock
  import Queue

  function PhaseOf(s: Sys, n: nat): Phase
    requires n in s.attempts && Queue.CheckLease(s.store, s.attempts[n].lease).Some?
  {
    Queue.CheckLease(s.store, s.attempts[n].lease).value
  }

  /** The part of the invariant that reads only the database and the history. */
  ghost predicate Recorded(s: Sys) { DbOk(s.store.db) && Numbered(s) && Honest(s) && Bounded(s) }

  ghost predicate SamePast(s: Sys, s': Sys) {
    s'.store.db == s.store.db && s'.issued == s.issued && s'.dots == s.dots && s'.refused == s.refused
  }

  lemma SameNumbers(s: Sys, s': Sys)
    requires Numbered(s) && Honest(s) && SamePast(s, s')
    ensures Numbered(s') && Honest(s')
  {
  }

  lemma SameRecords(s: Sys, s': Sys)
    requires Recorded(s) && SamePast(s, s')
    ensures Recorded(s')
  {
    SameNumbers(s, s');
    SameHistory(s, s');
  }

  lemma StageWires(s: Sys, n: nat, stage: Stage)
    requires Wired(s) && n in s.attempts
    ensures Wired(At(s, n, stage))
  {
    assert Live(At(s, n, stage)) == Live(s);
  }

  lemma StageHolds(s: Sys, n: nat, stage: Stage)
    requires Held(s) && n in s.attempts && AttemptOk(s, n) && StageOk(stage, PhaseOf(s, n), n in s.dots)
    ensures Held(At(s, n, stage))
  {
    var s' := At(s, n, stage);
    forall m | m in s'.attempts ensures AttemptOk(s', m) {
      assert AttemptOk(s, m);
    }
  }

  /** Only the stage of one attempt changes. */
  lemma StageKeeps(s: Sys, n: nat, stage: Stage)
    requires Good(s) && n in s.attempts && AttemptOk(s, n) && StageOk(stage, PhaseOf(s, n), n in s.dots)
    ensures Good(At(s, n, stage))
  {
    StageWires(s, n, stage);
    StageHolds(s, n, stage);
    SameRecords(s, At(s, n, stage));
  }

  /** Bounds depend only on the database and the history. */
  lemma SameHistory(s: Sys, s': Sys)
    requires Bounded(s) && s'.store.db == s.store.db && s'.issued == s.issued && s'.dots == s.dots
             && s'.refused == s.refused
    ensures Bounded(s')
  {
    forall id | id in s'.store.db.deliveries
      ensures |Unresolved(s', id)| <= Consents(s'.store.db.admin, id) + Slack(s', id)
    {
      assert Unresolved(s', id) == Unresolved(s, id);
      assert DottedNow(s', id) == DottedNow(s, id);
    }
  }

  /** Fewer owners: a dropped lease or reader, or a crash. */
  lemma ForgettingKeeps(s: Sys, s': Sys)
    requires Good(s) && SamePast(s, s') && s'.serial == s.serial && s'.readers <= s.readers
    requires forall n :: n in s'.attempts ==> n in s.attempts && s'.attempts[n] == s.attempts[n]
    requires s'.store == s.store || (s'.attempts == map[] && s'.readers == {} && s'.store.rt.active == map[])
    ensures Good(s')
  {
    ForgettingWires(s, s');
    SameRecords(s, s');
  }

  lemma ForgettingWires(s: Sys, s': Sys)
    requires Wired(s) && Held(s) && SamePast(s, s') && s'.serial == s.serial && s'.readers <= s.readers
    requires forall n :: n in s'.attempts ==> n in s.attempts && s'.attempts[n] == s.attempts[n]
    requires s'.store == s.store || (s'.attempts == map[] && s'.readers == {} && s'.store.rt.active == map[])
    ensures Wired(s') && Held(s')
  {
    assert Live(s') <= Live(s);
    forall m | m in s'.attempts ensures AttemptOk(s', m) {
      assert AttemptOk(s, m);
    }
  }

  lemma ReaderWires(s: Sys, n: nat)
    requires Wired(s) && Held(s) && n in s.attempts
    ensures Wired(s.(readers := s.readers + {n})) && Held(s.(readers := s.readers + {n}))
  {
    var s' := s.(readers := s.readers + {n});
    assert Live(s') == Live(s);
    forall m | m in s'.attempts ensures AttemptOk(s', m) {
      assert AttemptOk(s, m);
    }
  }

  lemma ReaderKeeps(s: Sys, n: nat)
    requires Good(s) && n in s.attempts
    ensures Good(s.(readers := s.readers + {n}))
  {
    ReaderWires(s, n);
    SameRecords(s, s.(readers := s.readers + {n}));
  }

  // ---------------------------------------------------------------- the final dot

  function Dotting(s: Sys, n: nat): Sys
    requires n in s.attempts
  {
    At(s.(dots := s.dots + {n}), n, Dotted)
  }

  lemma DotHolds(s: Sys, n: nat)
    requires Held(s) && n in s.attempts && s.attempts[n].stage == Marked
    ensures Held(Dotting(s, n))
  {
    var s' := Dotting(s, n);
    assert AttemptOk(s, n);
    forall m | m in s'.attempts ensures AttemptOk(s', m) {
      assert AttemptOk(s, m);
    }
  }

  lemma DotHonest(s: Sys, n: nat)
    requires Honest(s) && Wired(s) && n in s.attempts && AttemptOk(s, n) && s.attempts[n].stage == Marked
    ensures Honest(Dotting(s, n))
  {
    var s' := Dotting(s, n);
    assert s'.issued[n] == s.attempts[n].lease;
  }

  lemma DotWires(s: Sys, n: nat)
    requires Wired(s) && Numbered(s) && n in s.attempts
    ensures Wired(Dotting(s, n)) && Numbered(Dotting(s, n))
  {
    assert Live(Dotting(s, n)) == Live(s);
  }

  lemma DotBoundsHere(s: Sys, n: nat)
    requires Held(s) && Wired(s) && Numbered(s) && n in s.attempts && s.attempts[n].stage == Marked
    requires var id := s.issued[n].id;
             id in s.store.db.deliveries ==> |Unresolved(s, id)| <= Consents(s.store.db.admin, id) + Slack(s, id)
    ensures var id, s' := s.issued[n].id, Dotting(s, n);
            id in s'.store.db.deliveries
            && |Unresolved(s', id)| <= Consents(s'.store.db.admin, id) + Slack(s', id)
  {
    assert AttemptOk(s, n);
    NotDottedYet(s, n);
    DottedOnce(s, n);
    NowDotted(s, n);
    DotSlack(s, n);
  }

  lemma DotSlack(s: Sys, n: nat)
    requires Wired(s) && n in s.attempts && AttemptOk(s, n)
    requires s.issued[n].id in s.store.db.deliveries && !DottedNow(s, s.issued[n].id)
    requires s.issued[n].id in Dotting(s, n).store.db.deliveries && DottedNow(Dotting(s, n), s.issued[n].id)
    ensures Slack(s, s.issued[n].id) == 0 && Slack(Dotting(s, n), s.issued[n].id) == 1
  {
  }

  lemma DottedOnce(s: Sys, n: nat)
    requires Wired(s) && n in s.attempts && AttemptOk(s, n) && s.attempts[n].stage == Marked
    ensures var id := s.issued[n].id;
            n !in Unresolved(s, id) && Unresolved(Dotting(s, n), id) == Unresolved(s, id) + {n}
  {
  }

  lemma NowDotted(s: Sys, n: nat)
    requires Wired(s) && n in s.attempts && AttemptOk(s, n)
    ensures s.issued[n].id in Dotting(s, n).store.db.deliveries && DottedNow(Dotting(s, n), s.issued[n].id)
  {
    var id, s' := s.issued[n].id, Dotting(s, n);
    assert n in s'.dots && n in s'.issued && LeasedTo(ViewOf(s'.store.db, id), s'.issued[n].generation);
  }

  lemma DotBoundsThere(s: Sys, n: nat, id: Id)
    requires Wired(s) && Bounded(s) && n in s.attempts && id in s.store.db.deliveries && id != s.issued[n].id
    ensures var s' := Dotting(s, n);
            |Unresolved(s', id)| <= Consents(s'.store.db.admin, id) + Slack(s', id)
  {
    var s' := Dotting(s, n);
    assert Unresolved(s', id) == Unresolved(s, id);
    assert DottedNow(s', id) == DottedNow(s, id);
  }

  lemma DotBounds(s: Sys, n: nat)
    requires Held(s) && Wired(s) && Numbered(s) && Bounded(s) && n in s.attempts && s.attempts[n].stage == Marked
    ensures Bounded(Dotting(s, n))
  {
    var s' := Dotting(s, n);
    forall id | id in s'.store.db.deliveries
      ensures |Unresolved(s', id)| <= Consents(s'.store.db.admin, id) + Slack(s', id)
    {
      if id == s.issued[n].id {
        DotBoundsHere(s, n);
      } else {
        DotBoundsThere(s, n, id);
      }
    }
  }

  lemma DotKeeps(s: Sys, n: nat)
    requires Good(s) && n in s.attempts && s.attempts[n].stage == Marked
    ensures Good(Dotting(s, n))
  {
    assert AttemptOk(s, n);
    DotWires(s, n);
    DotHolds(s, n);
    DotHonest(s, n);
    DotBounds(s, n);
  }

  // ---------------------------------------------------------------- one owned row

  /** The row of one lease changes; every other row and the administrators' log stay. */
  ghost predicate OneRow(db: Db, next: Db, id: Id) {
    && next.deliveries.Keys == db.deliveries.Keys && id in db.deliveries && next.admin == db.admin
    && forall x :: x in db.deliveries && x != id ==> ViewOf(next, x) == ViewOf(db, x)
  }

  /** `s'` is `s` after a change of the row held by attempt `n`, with everyone else in place. */
  ghost predicate RowStep(s: Sys, s': Sys, n: nat) {
    && n in s.attempts && OneRow(s.store.db, s'.store.db, s.attempts[n].lease.id)
    && s'.store.rt.active == s.store.rt.active && s'.store.rt.lock == s.store.rt.lock
    && s'.issued == s.issued && s'.dots == s.dots && s'.serial == s.serial && s'.readers == s.readers
    && (s'.refused == s.refused || s'.refused == s.refused + {n})
    && (forall m :: m in s'.attempts ==> m in s.attempts && s'.attempts[m].lease == s.attempts[m].lease)
    && (forall m :: m in s'.attempts && m != n ==> s'.attempts[m] == s.attempts[m])
  }

  lemma OtherLease(s: Sys, n: nat, m: nat)
    requires Wired(s) && n in s.attempts && m in s.attempts && m != n
    ensures s.attempts[m].lease.id != s.attempts[n].lease.id
  {
    assert n in Live(s) && m in Live(s);
  }

  lemma RowStepHolds(s: Sys, s': Sys, n: nat, m: nat)
    requires Wired(s) && RowStep(s, s', n) && m in s'.attempts && m != n && AttemptOk(s, m)
    ensures AttemptOk(s', m)
  {
    OtherLease(s, n, m);
    var id := s.attempts[m].lease.id;
    assert ViewOf(s'.store.db, id) == ViewOf(s.store.db, id);
  }

  lemma RowStepWires(s: Sys, s': Sys, n: nat)
    requires Wired(s) && RowStep(s, s', n)
    ensures Wired(s')
  {
    assert Live(s') <= Live(s);
  }

  lemma RowStepNumbers(s: Sys, s': Sys, n: nat)
    requires Numbered(s) && RowStep(s, s', n)
    requires var id := s.attempts[n].lease.id;
             s'.store.db.deliveries[id].generation == s.store.db.deliveries[id].generation
    ensures Numbered(s')
  {
    forall m | m in s'.issued
      ensures s'.issued[m].id in s'.store.db.deliveries
              && s'.issued[m].generation <= s'.store.db.deliveries[s'.issued[m].id].generation
    {
      var x := s.issued[m].id;
      if x != s.attempts[n].lease.id {
        assert ViewOf(s'.store.db, x) == ViewOf(s.store.db, x);
      }
    }
  }

  /** Dots of the changed row must be accounted for anew; the others carry over. */
  lemma RowStepHonest(s: Sys, s': Sys, n: nat)
    requires Wired(s) && Honest(s) && RowStep(s, s', n)
    requires var id := s.attempts[n].lease.id;
             forall m :: m in s.dots && s.issued[m].id == id ==>
               Accounted(ViewOf(s'.store.db, id), s.issued[m].generation, m in s'.refused)
    ensures Honest(s')
  {
    forall m | m in s'.dots && s'.issued[m].id in s'.store.db.deliveries
      ensures Accounted(ViewOf(s'.store.db, s'.issued[m].id), s'.issued[m].generation, m in s'.refused)
    {
      var x := s.issued[m].id;
      if x != s.attempts[n].lease.id {
        assert ViewOf(s'.store.db, x) == ViewOf(s.store.db, x);
        assert Accounted(ViewOf(s.store.db, x), s.issued[m].generation, m in s.refused);
      }
    }
  }

  lemma RowStepElsewhere(s: Sys, s': Sys, n: nat, x: Id)
    requires Wired(s) && RowStep(s, s', n) && x in s'.store.db.deliveries && x != s.attempts[n].lease.id
    ensures x in s.store.db.deliveries && Unresolved(s', x) == Unresolved(s, x)
    ensures Consents(s'.store.db.admin, x) == Consents(s.store.db.admin, x) && Slack(s', x) == Slack(s, x)
  {
    assert ViewOf(s'.store.db, x) == ViewOf(s.store.db, x);
    assert Unresolved(s', x) == Unresolved(s, x);
    assert DottedNow(s', x) == DottedNow(s, x);
  }

  lemma RowStepBounds(s: Sys, s': Sys, n: nat)
    requires Wired(s) && Bounded(s) && RowStep(s, s', n)
    requires var id := s.attempts[n].lease.id;
             |Unresolved(s', id)| <= Consents(s'.store.db.admin, id) + Slack(s', id)
    ensures Bounded(s')
  {
    forall x | x in s'.store.db.deliveries
      ensures |Unresolved(s', x)| <= Consents(s'.store.db.admin, x) + Slack(s', x)
    {
      if x != s.attempts[n].lease.id {
        RowStepElsewhere(s, s', n, x);
      }
    }
  }

  // ---------------------------------------------------------------- the body mark

  /** The database after a durable body mark. */
  function MarkedDb(s: Sys, n: nat): Queue.Store
    requires n in s.attempts
  {
    s.store.(db := s.store.db.(leases := s.store.db.leases[s.attempts[n].lease.id := Body]))
  }

  lemma MarkedRowsOk(db: Db, id: Id)
    requires RowsOk(db) && id in db.leases && id in db.deliveries
    ensures var next := db.(leases := db.leases[id := Body]);
            RowsOk(next) && OneRow(db, next, id) && Marks(ViewOf(db, id), ViewOf(next, id))
  {
    var next := db.(leases := db.leases[id := Body]);
    forall x | x in next.deliveries ensures RowOk(ViewOf(next, x)) {
      assert RowOk(ViewOf(db, x));
    }
  }

  lemma MarkRows(db: Db, id: Id)
    requires DbOk(db) && id in db.leases && id in db.deliveries
    ensures var next := db.(leases := db.leases[id := Body]);
            DbOk(next) && OneRow(db, next, id) && Marks(ViewOf(db, id), ViewOf(next, id))
  {
    var next := db.(leases := db.leases[id := Body]);
    MarkedRowsOk(db, id);
    assert QueueOnly(db, next);
    QueueOnlyKeepsRest(db, next);
  }

  function MarkedSys(s: Sys, n: nat, stage: Stage): Sys
    requires n in s.attempts
  {
    At(s.(store := MarkedDb(s, n)), n, stage)
  }

  lemma MarkIsRowStep(s: Sys, n: nat, stage: Stage)
    requires DbOk(s.store.db) && n in s.attempts && AttemptOk(s, n)
    ensures var id, s' := s.attempts[n].lease.id, MarkedSys(s, n, stage);
            && RowStep(s, s', n) && DbOk(s'.store.db)
            && Marks(ViewOf(s.store.db, id), ViewOf(s'.store.db, id))
  {
    MarkRows(s.store.db, s.attempts[n].lease.id);
  }

  lemma MarkBounds(s: Sys, s': Sys, n: nat)
    requires Wired(s) && Bounded(s) && RowStep(s, s', n) && s'.refused == s.refused
    requires var id := s.attempts[n].lease.id; Marks(ViewOf(s.store.db, id), ViewOf(s'.store.db, id))
    ensures Bounded(s')
  {
    var id := s.attempts[n].lease.id;
    assert Unresolved(s', id) == Unresolved(s, id);
    assert DottedNow(s', id) == DottedNow(s, id);
    RowStepBounds(s, s', n);
  }

  /** A durable mark together with a stage that allows the body phase. */
  lemma DurableMarkKeeps(s: Sys, n: nat, stage: Stage)
    requires Good(s) && n in s.attempts && StageOk(stage, Body, n in s.dots)
    ensures Good(MarkedSys(s, n, stage))
  {
    var s' := MarkedSys(s, n, stage);
    assert AttemptOk(s, n);
    MarkIsRowStep(s, n, stage);
    forall m | m in s'.attempts ensures AttemptOk(s', m) {
      if m != n {
        RowStepHolds(s, s', n, m);
      }
    }
    RowStepWires(s, s', n);
    RowStepNumbers(s, s', n);
    RowStepHonest(s, s', n);
    MarkBounds(s, s', n);
  }

  lemma MarkCases(s: Sys, n: nat, fate: Fate)
    requires n in s.attempts && Queue.CheckLease(s.store, s.attempts[n].lease).Some?
    ensures var stage := s.attempts[n].stage;
            Marking(s, n, fate)
            == if stage != Envelope && stage != Abandoned then s
               else if fate.LostUnknown? then At(s, n, AfterMark(stage, false))
               else MarkedSys(s, n, AfterMark(stage, fate.Confirmed?))
  {
    assert s.attempts[n := s.attempts[n]] == s.attempts;
  }

  /** The stage a mark leads to: the next one, or a lost connection when its answer is missing. */
  function AfterMark(stage: Stage, told: bool): Stage {
    if stage == Abandoned then Abandoned else if told then Marked else Done(Queue.ConnectionLost)
  }

  lemma MarkStages(s: Sys, n: nat, told: bool)
    requires n in s.attempts && AttemptOk(s, n) && (s.attempts[n].stage == Envelope || s.attempts[n].stage == Abandoned)
    ensures StageOk(AfterMark(s.attempts[n].stage, told), Body, n in s.dots)
    ensures StageOk(AfterMark(s.attempts[n].stage, false), PhaseOf(s, n), n in s.dots)
  {
  }

  lemma MarkKeepsAs(s: Sys, n: nat, fate: Fate, s': Sys)
    requires Good(s) && n in s.attempts && (s.attempts[n].stage == Envelope || s.attempts[n].stage == Abandoned)
    requires s' == if fate.LostUnknown? then At(s, n, AfterMark(s.attempts[n].stage, false))
                   else MarkedSys(s, n, AfterMark(s.attempts[n].stage, fate.Confirmed?))
    ensures Good(s')
  {
    assert AttemptOk(s, n);
    MarkStages(s, n, fate.Confirmed?);
    if fate.LostUnknown? {
      StageKeeps(s, n, AfterMark(s.attempts[n].stage, false));
    } else {
      DurableMarkKeeps(s, n, AfterMark(s.attempts[n].stage, fate.Confirmed?));
    }
  }

  lemma MarkKeeps(s: Sys, n: nat, fate: Fate)
    requires Good(s) && n in s.attempts
    ensures Good(Marking(s, n, fate))
  {
    assert AttemptOk(s, n);
    MarkCases(s, n, fate);
    if s.attempts[n].stage == Envelope || s.attempts[n].stage == Abandoned {
      MarkKeepsAs(s, n, fate, Marking(s, n, fate));
    }
  }

  // ---------------------------------------------------------------- the end of an attempt

  /** The store after a durably recorded result. */
  function FinishedDb(db: Db, id: Id, v: (State, Option<int>, Option<Reason>), next: int, due: int): Db
    requires id in db.deliveries
  {
    Queue.Put(db, id, Queue.FinishedRow(db.deliveries[id], v, next, due)).(leases := db.leases - {id})
  }

  lemma FinishedMoves(db: Db, id: Id, v: (State, Option<int>, Option<Reason>), next_: int, due: int)
    requires id in db.leases && id in db.deliveries && db.deliveries[id].route == Relay
             && db.deliveries[id].state == Leased
    requires Witnessed(v.0, db.leases[id], v.1, v.2)
    ensures var next := FinishedDb(db, id, v, next_, due);
            OneRow(db, next, id) && Finishes(ViewOf(db, id), ViewOf(next, id), v.0)
  {
  }

  lemma FinishedRowsOk(db: Db, id: Id, v: (State, Option<int>, Option<Reason>), next_: int, due: int)
    requires RowsOk(db) && id in db.leases && id in db.deliveries && db.deliveries[id].route == Relay
    requires Witnessed(v.0, db.leases[id], v.1, v.2)
    ensures var next := FinishedDb(db, id, v, next_, due);
            RowsOk(next) && OneRow(db, next, id) && Finishes(ViewOf(db, id), ViewOf(next, id), v.0)
  {
    var next := FinishedDb(db, id, v, next_, due);
    assert RowOk(ViewOf(db, id));
    FinishedMoves(db, id, v, next_, due);
    forall x | x in next.deliveries ensures RowOk(ViewOf(next, x)) {
      if x == id {
        MoveKeepsRow(ViewOf(db, id), ViewOf(next, id));
      } else {
        assert RowOk(ViewOf(db, x)) && ViewOf(next, x) == ViewOf(db, x);
      }
    }
  }

  lemma FinishRows(db: Db, id: Id, v: (State, Option<int>, Option<Reason>), next_: int, due: int)
    requires DbOk(db) && id in db.leases && id in db.deliveries && db.deliveries[id].route == Relay
    requires Witnessed(v.0, db.leases[id], v.1, v.2)
    ensures var next := FinishedDb(db, id, v, next_, due);
            DbOk(next) && OneRow(db, next, id) && Finishes(ViewOf(db, id), ViewOf(next, id), v.0)
  {
    var next := FinishedDb(db, id, v, next_, due);
    FinishedRowsOk(db, id, v, next_, due);
    assert QueueOnly(db, next);
    QueueOnlyKeepsRest(db, next);
  }

  /** Only a result that certainly ends in delivery, refusal or doubt follows a sent dot. */
  lemma VerdictAfterDot(phase: Phase, result: Queue.QueueResult)
    requires Queue.Verdict(phase, result).Some?
    ensures var v := Queue.Verdict(phase, result).value; Witnessed(v.0, phase, v.1, v.2)
    ensures phase == Body && !result.HoldBack? && !result.Unavailable? ==>
              Refusing(result) || Queue.Verdict(phase, result).value.0 in {Delivered, Uncertain}
  {
  }

  /** The change made by a durable finish. */
  ghost predicate FinishStep(s: Sys, s': Sys, n: nat) {
    && RowStep(s, s', n) && s.attempts[n].stage.Done? && n !in s'.attempts
    && Queue.CheckLease(s.store, s.attempts[n].lease).Some?
    && var phase, result := PhaseOf(s, n), s.attempts[n].stage.result;
       && Queue.Verdict(phase, result).Some?
       && s'.refused == (if Refusing(result) then s.refused + {n} else s.refused)
       && var id := s.attempts[n].lease.id;
          Finishes(ViewOf(s.store.db, id), ViewOf(s'.store.db, id), Queue.Verdict(phase, result).value.0)
  }

  /** An earlier dot of the same row is never the running attempt's. */
  lemma EarlierDot(s: Sys, n: nat, m: nat)
    requires Wired(s) && Held(s) && Numbered(s) && n in s.attempts && m in s.issued && m != n
    requires s.issued[m].id == s.issued[n].id
    ensures s.issued[n].id in s.store.db.deliveries
    ensures !LeasedTo(ViewOf(s.store.db, s.issued[n].id), s.issued[m].generation)
  {
    assert AttemptOk(s, n);
  }

  lemma FinishAccounts(s: Sys, s': Sys, n: nat, m: nat)
    requires Wired(s) && Held(s) && Numbered(s) && Honest(s) && FinishStep(s, s', n)
    requires m in s.dots && s.issued[m].id == s.attempts[n].lease.id
    ensures Accounted(ViewOf(s'.store.db, s.attempts[n].lease.id), s.issued[m].generation, m in s'.refused)
  {
    var id := s.attempts[n].lease.id;
    assert AttemptOk(s, n);
    assert Accounted(ViewOf(s.store.db, id), s.issued[m].generation, m in s.refused);
    if m != n {
      EarlierDot(s, n, m);
    } else {
      VerdictAfterDot(PhaseOf(s, n), s.attempts[n].stage.result);
    }
  }

  lemma FinishBoundsDotted(s: Sys, s': Sys, n: nat)
    requires Wired(s) && Held(s) && Bounded(s) && FinishStep(s, s', n) && n in s.dots
    ensures var id := s.attempts[n].lease.id;
            |Unresolved(s', id)| <= Consents(s'.store.db.admin, id) + Slack(s', id)
  {
    var id := s.attempts[n].lease.id;
    assert AttemptOk(s, n);
    VerdictAfterDot(PhaseOf(s, n), s.attempts[n].stage.result);
    assert n in Unresolved(s, id);
    if Refusing(s.attempts[n].stage.result) {
      assert Unresolved(s', id) == Unresolved(s, id) - {n};
    } else {
      assert Unresolved(s', id) == Unresolved(s, id);
      assert ViewOf(s'.store.db, id).d.state in {Delivered, Uncertain};
    }
  }

  lemma FinishBoundsUndotted(s: Sys, s': Sys, n: nat)
    requires Wired(s) && Held(s) && Numbered(s) && Bounded(s) && FinishStep(s, s', n) && n !in s.dots
    ensures var id := s.attempts[n].lease.id;
            |Unresolved(s', id)| <= Consents(s'.store.db.admin, id) + Slack(s', id)
  {
    var id := s.attempts[n].lease.id;
    NotDottedYet(s, n);
    UndottedSame(s, s', n);
    assert |Unresolved(s, id)| <= Consents(s.store.db.admin, id) + Slack(s, id);
  }

  lemma UndottedSame(s: Sys, s': Sys, n: nat)
    requires FinishStep(s, s', n) && n !in s.dots
    ensures var id := s.attempts[n].lease.id; Unresolved(s', id) == Unresolved(s, id)
  {
  }

  lemma NotDottedYet(s: Sys, n: nat)
    requires Wired(s) && Held(s) && Numbered(s) && n in s.attempts && n !in s.dots
    requires s.attempts[n].lease.id in s.store.db.deliveries
    ensures !DottedNow(s, s.attempts[n].lease.id)
  {
    var id := s.attempts[n].lease.id;
    forall m | m in s.dots && m in s.issued && s.issued[m].id == id
      ensures !LeasedTo(ViewOf(s.store.db, id), s.issued[m].generation)
    {
      EarlierDot(s, n, m);
    }
  }

  lemma FinishBoundsHere(s: Sys, s': Sys, n: nat)
    requires Wired(s) && Held(s) && Numbered(s) && Bounded(s) && FinishStep(s, s', n)
    ensures var id := s.attempts[n].lease.id;
            |Unresolved(s', id)| <= Consents(s'.store.db.admin, id) + Slack(s', id)
  {
    if n in s.dots {
      FinishBoundsDotted(s, s', n);
    } else {
      FinishBoundsUndotted(s, s', n);
    }
  }

  lemma FinishStepKeeps(s: Sys, s': Sys, n: nat)
    requires Good(s) && FinishStep(s, s', n) && DbOk(s'.store.db)
    ensures Good(s')
  {
    forall m | m in s'.attempts ensures AttemptOk(s', m) {
      assert AttemptOk(s, m);
      RowStepHolds(s, s', n, m);
    }
    forall m | m in s.dots && s.issued[m].id == s.attempts[n].lease.id
      ensures Accounted(ViewOf(s'.store.db, s.attempts[n].lease.id), s.issued[m].generation, m in s'.refused)
    {
      FinishAccounts(s, s', n, m);
    }
    RowStepWires(s, s', n);
    RowStepNumbers(s, s', n);
    RowStepHonest(s, s', n);
    FinishBoundsHere(s, s', n);
    RowStepBounds(s, s', n);
  }

  /** How `queue_finish` can end for a valid lease: it never refuses an attempt's result. */
  lemma FinishOutcome(t: Queue.Store, lease: Queue.Lease, result: Queue.QueueResult, r: Clock.Reading,
                      guarded: Clock.Reading, fate: Fate)
    requires Queue.CheckLease(t, lease).Some? && Queue.Verdict(Queue.CheckLease(t, lease).value, result).Some?
    ensures var (t', done) := Queue.Finish(t, lease, result, r, guarded, fate);
            var v := Queue.Verdict(Queue.CheckLease(t, lease).value, result).value;
            && t'.rt == t.rt.(clock := t'.rt.clock)
            && (if r.wall.Some? && guarded.wall.Some? then
                  && done == (if fate.Confirmed? then Ok(()) else Err(OutcomeUnknown))
                  && (if fate.LostUnknown? then t'.db == t.db
                      else exists next, due :: t'.db == FinishedDb(t.db, lease.id, v, next, due))
                else t'.db == t.db && done == Err(InvalidInput))
  {
    if r.wall.Some? && guarded.wall.Some? && !fate.LostUnknown? {
      var now := r.wall.value;
      var due := Queue.NoticeDue(t, now, guarded).1.value;
      var v := Queue.Verdict(Queue.CheckLease(t, lease).value, result).value;
      var t' := Queue.Finish(t, lease, result, r, guarded, fate).0;
      assert t'.db == FinishedDb(t.db, lease.id, v, Queue.SaturatingAdd(now, lease.retryMs), due);
    }
  }

  /** The two ways a finished attempt leaves the system. */
  lemma FinishCases(s: Sys, n: nat, r: Clock.Reading, guarded: Clock.Reading, fate: Fate)
    requires n in s.attempts && s.attempts[n].stage.Done? && Queue.CheckLease(s.store, s.attempts[n].lease).Some?
    requires Queue.Verdict(PhaseOf(s, n), s.attempts[n].stage.result).Some?
    ensures var s', result, id := Finishing(s, n, r, guarded, fate), s.attempts[n].stage.result, s.attempts[n].lease.id;
            var v := Queue.Verdict(PhaseOf(s, n), result).value;
            && s' == s.(store := s'.store, attempts := s.attempts - {n}, refused := s'.refused)
            && s'.store.rt == s.store.rt.(clock := s'.store.rt.clock)
            && (|| (s'.store.db == s.store.db && s'.refused == s.refused)
                || (s'.refused == (if Refusing(result) then s.refused + {n} else s.refused)
                    && exists next, due :: s'.store.db == FinishedDb(s.store.db, id, v, next, due)))
  {
    FinishOutcome(s.store, s.attempts[n].lease, s.attempts[n].stage.result, r, guarded, fate);
  }

  lemma FinishRecorded(s: Sys, s': Sys, n: nat, next: int, due: int)
    requires Good(s) && n in s.attempts && s.attempts[n].stage.Done?
    requires Queue.CheckLease(s.store, s.attempts[n].lease).Some?
    requires Queue.Verdict(PhaseOf(s, n), s.attempts[n].stage.result).Some?
    requires s' == s.(store := s'.store, attempts := s.attempts - {n}, refused := s'.refused)
    requires s'.store.rt == s.store.rt.(clock := s'.store.rt.clock)
    requires s'.refused == if Refusing(s.attempts[n].stage.result) then s.refused + {n} else s.refused
    requires s'.store.db == FinishedDb(s.store.db, s.attempts[n].lease.id,
                                       Queue.Verdict(PhaseOf(s, n), s.attempts[n].stage.result).value, next, due)
    ensures Good(s')
  {
    var v := Queue.Verdict(PhaseOf(s, n), s.attempts[n].stage.result).value;
    VerdictAfterDot(PhaseOf(s, n), s.attempts[n].stage.result);
    FinishRows(s.store.db, s.attempts[n].lease.id, v, next, due);
    assert RowStep(s, s', n);
    FinishStepKeeps(s, s', n);
  }

  lemma FinishKeeps(s: Sys, n: nat, r: Clock.Reading, guarded: Clock.Reading, fate: Fate)
    requires Good(s) && n in s.attempts
    ensures Good(Finishing(s, n, r, guarded, fate))
  {
    assert AttemptOk(s, n);
    if s.attempts[n].stage.Done? {
      FinishCases(s, n, r, guarded, fate);
      var s' := Finishing(s, n, r, guarded, fate);
      if s'.store.db == s.store.db && s'.refused == s.refused {
        FinishUnrecorded(s, s', n);
      } else {
        var v := Queue.Verdict(PhaseOf(s, n), s.attempts[n].stage.result).value;
        var next, due :| s'.store.db == FinishedDb(s.store.db, s.attempts[n].lease.id, v, next, due);
        FinishRecorded(s, s', n, next, due);
      }
    }
  }

  /** Nothing was recorded: the lease is gone from memory only. */
  lemma FinishUnrecorded(s: Sys, s': Sys, n: nat)
    requires Good(s) && n in s.attempts && s'.store.db == s.store.db && s'.refused == s.refused
    requires s' == s.(store := s'.store, attempts := s.attempts - {n})
    requires s'.store.rt == s.store.rt.(clock := s'.store.rt.clock)
    ensures Good(s')
  {
    var s1 := s.(attempts := s.attempts - {n});
    ForgettingKeeps(s, s1);
    NothingHappens(s.store.db, Owned(s1));
    StoreStepKeeps(s1, s'.store);
  }

  // ---------------------------------------------------------------- every step of an attempt

  lemma RejectedIsLegal(phase: Phase, code: nat)
    ensures Queue.Verdict(phase, Rejected(code)).Some?
    ensures !Rejected(code).HoldBack? && !Rejected(code).Unavailable?
  {
  }

  /** What the steps that only move an attempt to its next stage come to. */
  lemma Staged(s: Sys, n: nat, step: Step) returns (stage: Stage)
    requires n in s.attempts && AttemptOk(s, n)
    requires step.FailEnvelope? || step.FailBody? || step.Reply? || step.Lose? || step.Abandon?
             || (step.Open? && !step.readable)
    ensures StageOk(stage, PhaseOf(s, n), n in s.dots)
    ensures Attempted(s, step, n) == s || Attempted(s, step, n) == At(s, n, stage)
  {
    var phase := PhaseOf(s, n);
    stage := s.attempts[n].stage;
    match step {
      case FailEnvelope(_, failure) =>
        if stage == Envelope {
          if failure.Refusal? {
            RejectedIsLegal(phase, failure.code);
          }
          stage := Done(EnvelopeResult(failure));
        }
      case FailBody(_) =>
        if stage == Marked {
          stage := Done(Queue.HoldBack);
        }
      case Reply(_, code) =>
        if stage == Dotted {
          RejectedIsLegal(phase, code);
          stage := Done(if 200 <= code < 300 then Queue.Accepted(code) else Rejected(code));
        }
      case Lose(_) =>
        if stage in {Envelope, Marked, Dotted} {
          stage := Done(Queue.ConnectionLost);
        }
      case Abandon(_) => stage := Abandoned;
      case Open(_, _) =>
        if stage == Opening {
          stage := Done(Queue.HoldBack);
        }
    }
  }

  lemma StagingKeeps(s: Sys, n: nat, step: Step)
    requires Good(s) && n in s.attempts
    requires step.FailEnvelope? || step.FailBody? || step.Reply? || step.Lose? || step.Abandon?
             || (step.Open? && !step.readable)
    ensures Good(Attempted(s, step, n))
  {
    assert AttemptOk(s, n);
    var stage := Staged(s, n, step);
    StageKeeps(s, n, stage);
  }

  lemma OpenedIs(s: Sys, n: nat, step: Step)
    requires n in s.attempts && step.Open? && step.readable
    ensures Attempted(s, step, n)
            == if s.attempts[n].stage == Opening then At(s.(readers := s.readers + {n}), n, Envelope) else s
  {
  }

  lemma OpenKeeps(s: Sys, n: nat, step: Step)
    requires Good(s) && n in s.attempts && step.Open?
    ensures Good(Attempted(s, step, n))
  {
    if step.readable {
      OpenedIs(s, n, step);
      if s.attempts[n].stage == Opening {
        ReaderKeeps(s, n);
        var s1 := s.(readers := s.readers + {n});
        assert AttemptOk(s1, n);
        StageKeeps(s1, n, Envelope);
      }
    } else {
      StagingKeeps(s, n, step);
    }
  }

  lemma RenewedIs(s: Sys, n: nat, step: Step) returns (t: Queue.Store, ok: bool)
    requires n in s.attempts && step.Renew? && s.attempts[n].stage in {Envelope, Marked, Dotted}
    ensures t == Queue.Renew(s.store, s.attempts[n].lease, 300, step.r, step.fate).0
    ensures Attempted(s, step, n) == if ok then s.(store := t) else At(s.(store := t), n, Done(Queue.ConnectionLost))
  {
    var answer := Queue.Renew(s.store, s.attempts[n].lease, 300, step.r, step.fate);
    t := answer.0;
    ok := answer.1.Ok?;
  }

  /** A connection may be lost at any stage. */
  lemma LossIsLegal(s: Sys, n: nat)
    requires n in s.attempts && AttemptOk(s, n)
    ensures StageOk(Done(Queue.ConnectionLost), PhaseOf(s, n), n in s.dots)
  {
  }

  lemma LosingKeeps(s: Sys, n: nat)
    requires Good(s) && n in s.attempts
    ensures Good(At(s, n, Done(Queue.ConnectionLost)))
  {
    assert AttemptOk(s, n);
    LossIsLegal(s, n);
    StageKeeps(s, n, Done(Queue.ConnectionLost));
  }

  lemma RenewKeepsAs(s: Sys, n: nat, t: Queue.Store, ok: bool, s': Sys)
    requires Good(s) && n in s.attempts && StoreStep(s, t)
    requires s' == if ok then s.(store := t) else At(s.(store := t), n, Done(Queue.ConnectionLost))
    ensures Good(s')
  {
    StoreStepKeeps(s, t);
    if !ok {
      LosingKeeps(s.(store := t), n);
    }
  }

  lemma RenewIsStep(s: Sys, n: nat, r: Clock.Reading, fate: Fate)
    requires DbOk(s.store.db) && n in s.attempts
    ensures StoreStep(s, Queue.Renew(s.store, s.attempts[n].lease, 300, r, fate).0)
  {
    RenewSound(s.store, s.attempts[n].lease, 300, r, fate, Owned(s));
  }

  lemma RenewKeeps(s: Sys, n: nat, step: Step)
    requires Good(s) && n in s.attempts && step.Renew?
    ensures Good(Attempted(s, step, n))
  {
    if s.attempts[n].stage in {Envelope, Marked, Dotted} {
      var t, ok := RenewedIs(s, n, step);
      RenewIsStep(s, n, step.r, step.fate);
      RenewKeepsAs(s, n, t, ok, Attempted(s, step, n));
    } else {
      NotRenewed(s, n, step);
    }
  }

  lemma NotRenewed(s: Sys, n: nat, step: Step)
    requires n in s.attempts && step.Renew? && s.attempts[n].stage !in {Envelope, Marked, Dotted}
    ensures Attempted(s, step, n) == s
  {
  }

  /** The remaining steps, each by its own function. */
  lemma OtherwiseIs(s: Sys, n: nat, step: Step)
    requires n in s.attempts
    ensures step.MarkBody? ==> Attempted(s, step, n) == Marking(s, n, step.fate)
    ensures step.SendDot? ==> Attempted(s, step, n) == if s.attempts[n].stage == Marked then Dotting(s, n) else s
    ensures step.Finish? ==> Attempted(s, step, n) == Finishing(s, n, step.r, step.guarded, step.fate)
    ensures step.DropLease? ==> Attempted(s, step, n) == s.(attempts := s.attempts - {n})
  {
  }

  lemma OtherwiseKeeps(s: Sys, n: nat, step: Step)
    requires Good(s) && n in s.attempts && (step.MarkBody? || step.SendDot? || step.Finish? || step.DropLease?)
    ensures Good(Attempted(s, step, n))
  {
    OtherwiseIs(s, n, step);
    if step.MarkBody? {
      MarkKeeps(s, n, step.fate);
    } else if step.SendDot? {
      if s.attempts[n].stage == Marked {
        DotKeeps(s, n);
      }
    } else if step.Finish? {
      FinishKeeps(s, n, step.r, step.guarded, step.fate);
    } else {
      ForgettingKeeps(s, s.(attempts := s.attempts - {n}));
    }
  }
}
